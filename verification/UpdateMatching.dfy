/** Which entry of a trip update belongs to which stop: the cursor of `update_run`. */
module UpdateMatching {
  import opened Basics
  import opened RealTime

  datatype Relationship = Scheduled | Skipped | NoData | Unscheduled

  /** Delay and time are in seconds, as they are in the feed. */
  datatype TimeEvent = TimeEvent(delay: Option<int>, time: Option<int>)

  datatype StopTimeUpdate = StopTimeUpdate(relationship: Relationship, sequence: Option<nat>, stopId: Option<string>,
                                           assignedId: Option<string>, arrival: Option<TimeEvent>, departure: Option<TimeEvent>)

  /** Everything the matching looks at: the locations, the stops of the run from
      `from` up to `to` with their sequence numbers, and the entries of the update. */
  datatype Context = Context(ids: seq<string>, byId: map<string, nat>, equivalences: seq<seq<nat>>,
                             stops: seq<Stop>, numbers: seq<nat>, scheduled: bool, from: nat, to: nat,
                             stus: seq<StopTimeUpdate>)

  ghost predicate ContextOk(c: Context) {
    && c.from <= c.to <= |c.stops| && |c.numbers| == c.to - c.from && |c.ids| == |c.equivalences|
    && (forall s :: 0 <= s < |c.stops| ==> c.stops[s].location < |c.ids|)
    && (!c.scheduled ==> c.from == 0 && c.to == |c.stops|)
  }

  function IdAt(c: Context, s: nat): string
    requires ContextOk(c) && s < c.to
  {
    c.ids[c.stops[s].location]
  }

  /** An absent stop id reads as the empty string. */
  function IdOf(u: StopTimeUpdate): string {
    if u.stopId.Some? then u.stopId.value else ""
  }

  /** The entry's id occurs at fewer than two of the stops from `s` on. */
  ghost predicate Unambiguous(c: Context, s: nat, id: string)
    requires ContextOk(c) && s <= c.to
  {
    forall p, q :: s <= p < q < c.to ==> !(IdAt(c, p) == id && IdAt(c, q) == id)
  }

  /** Entry `u`, looked at from stop `s`, stands for stop `q`: by sequence number, or
      by stop id unless a sequence number is there and the id is ambiguous. */
  ghost predicate StandsFor(c: Context, u: StopTimeUpdate, s: nat, q: nat)
    requires ContextOk(c) && c.from <= s <= q < c.to
  {
    var hasSeq := c.scheduled && u.sequence.Some?;
    || (hasSeq && u.sequence.value == c.numbers[q - c.from])
    || ((!hasSeq || Unambiguous(c, s, IdOf(u))) && u.stopId == Some(IdAt(c, q)))
  }

  /** A skipped entry directly before a scheduled one with the same number. */
  ghost predicate SkippedTwin(c: Context, u: nat)
    requires u < |c.stus|
  {
    && u + 1 < |c.stus|
    && c.stus[u].relationship == Skipped && c.stus[u + 1].relationship == Scheduled
    && c.stus[u].sequence.Some? && c.stus[u].sequence == c.stus[u + 1].sequence
  }

  /** Entry `u` is of no use at stop `s` and later. */
  ghost predicate Useless(c: Context, s: nat, u: nat)
    requires ContextOk(c) && c.from <= s < c.to && u < |c.stus|
  {
    SkippedTwin(c, u) || forall q :: s <= q < c.to ==> !StandsFor(c, c.stus[u], s, q)
  }

  /** The first entry from `u` on that is of use at `s` or later. */
  ghost function Cursor(c: Context, s: nat, u: nat): (r: nat)
    requires ContextOk(c) && c.from <= s < c.to && u <= |c.stus|
    ensures u <= r <= |c.stus|
    ensures forall v :: u <= v < r ==> Useless(c, s, v)
    ensures r < |c.stus| ==> !Useless(c, s, r)
    decreases |c.stus| - u
  {
    if u < |c.stus| && Useless(c, s, u) then Cursor(c, s, u + 1) else u
  }

  /** The entry that the cursor finds is for this very stop. */
  ghost predicate Matched(c: Context, s: nat, u: nat)
    requires ContextOk(c) && c.from <= s < c.to && u <= |c.stus|
  {
    Cursor(c, s, u) < |c.stus| && StandsFor(c, c.stus[Cursor(c, s, u)], s, s)
  }

  /** A matched entry asks for another location. */
  predicate ChangesTrack(c: Context, s: nat, u: StopTimeUpdate)
    requires s < |c.stops| && c.stops[s].location < |c.ids|
  {
    && u.relationship != Skipped
    && (u.assignedId.Some? || (u.stopId.Some? && u.stopId.value != c.ids[c.stops[s].location]))
  }

  function NewLocationId(u: StopTimeUpdate): string {
    if u.assignedId.Some? then u.assignedId.value else IdOf(u)
  }

  /** The change is no mere track change: unknown location or not an equivalent one. */
  predicate Rejected(c: Context, s: nat, u: StopTimeUpdate)
    requires s < |c.stops| && c.stops[s].location < |c.ids| == |c.equivalences|
  {
    ChangesTrack(c, s, u) &&
      (NewLocationId(u) !in c.byId || c.byId[NewLocationId(u)] !in c.equivalences[c.stops[s].location])
  }

  /** Cursor position before stop `s`. */
  ghost function CursorBefore(c: Context, s: nat): (u: nat)
    requires ContextOk(c) && c.from <= s <= c.to
    ensures u <= |c.stus|
    decreases s
  {
    if s == c.from then 0 else CursorAfter(c, s - 1, CursorBefore(c, s - 1))
  }

  /** A matched entry is consumed, unless its track change is rejected. */
  ghost function CursorAfter(c: Context, s: nat, u: nat): (r: nat)
    requires ContextOk(c) && c.from <= s < c.to && u <= |c.stus|
    ensures u <= r <= |c.stus|
  {
    var v := Cursor(c, s, u);
    if Matched(c, s, u) && !Rejected(c, s, c.stus[v]) then v + 1 else v
  }

  /** The entry that stop `s` uses. */
  ghost function UsedAt(c: Context, s: nat): Option<nat>
    requires ContextOk(c) && c.from <= s < c.to
  {
    if Matched(c, s, CursorBefore(c, s)) then Some(Cursor(c, s, CursorBefore(c, s))) else None
  }

  ghost predicate ConsumedAt(c: Context, s: nat, u: nat)
    requires ContextOk(c) && c.from <= s < c.to
  {
    UsedAt(c, s) == Some(u) && u < |c.stus| && !Rejected(c, s, c.stus[u])
  }

  lemma {:induction false} CursorAdvances(c: Context, s: nat, t: nat)
    requires ContextOk(c) && c.from <= s <= t <= c.to
    ensures CursorBefore(c, s) <= CursorBefore(c, t)
    decreases t
  {
    hide CursorAfter;
    if s < t {
      CursorAdvances(c, s, t - 1);
    }
  }

  /** Entries are used in their order, and a second time only if their track change was
      rejected the first time; so a consumed entry is never used again. */
  lemma ConsumedInOrder(c: Context, s: nat, t: nat, u: nat, v: nat)
    requires ContextOk(c) && c.from <= s < t < c.to
    requires UsedAt(c, s) == Some(u) && UsedAt(c, t) == Some(v)
    ensures u <= v && u < |c.stus| && (u == v ==> Rejected(c, s, c.stus[u]))
    ensures ConsumedAt(c, s, u) ==> u < v
  {
    hide Useless, Rejected, StandsFor;
    assert CursorBefore(c, s + 1) == if ConsumedAt(c, s, u) then u + 1 else u;
    CursorAdvances(c, s + 1, t);
  }

  ghost function NumberAt(c: Context, s: nat): nat
    requires ContextOk(c) && c.from <= s < c.to
  {
    c.numbers[s - c.from]
  }

  /** The entry names stop `s` by its number and a later stop `q` by its id, and asks
      for no other location. */
  ghost predicate NamesTwoStops(c: Context, u: StopTimeUpdate, s: nat, q: nat)
    requires ContextOk(c) && c.from <= s < q < c.to
  {
    && c.scheduled && u.sequence == Some(NumberAt(c, s)) && u.stopId == Some(IdAt(c, q)) && u.assignedId == None
    && (forall p :: s <= p < c.to && p != q ==> IdAt(c, p) != IdAt(c, q))
    && (forall p :: s < p < q ==> NumberAt(c, p) != NumberAt(c, s))
  }

  /** If such an entry is rejected at `s`, it holds the cursor until `q` and is consumed
      there: the stops in between get no entry, and stop `q` gets the data of stop `s`. */
  lemma {:induction false} RejectedEntryReturns(c: Context, s: nat, q: nat, u: nat, t: nat)
    requires ContextOk(c) && c.from <= s < t <= q < c.to && UsedAt(c, s) == Some(u) && u < |c.stus|
    requires NamesTwoStops(c, c.stus[u], s, q) && Rejected(c, s, c.stus[u])
    ensures CursorBefore(c, t) == u && UsedAt(c, t) == (if t == q then Some(u) else None)
    ensures t == q ==> ConsumedAt(c, q, u)
    decreases t
  {
    hide Useless, Rejected, StandsFor, NamesTwoStops;
    assert CursorBefore(c, s + 1) == u;
    if s + 1 < t {
      RejectedEntryReturns(c, s, q, u, t - 1);
      StillOfUse(c, s, q, u, t - 1);
    }
    StillOfUse(c, s, q, u, t);
    NotRejectedThere(c, s, q, u);
  }

  lemma StillOfUse(c: Context, s: nat, q: nat, u: nat, t: nat)
    requires ContextOk(c) && c.from <= s < t <= q < c.to && u < |c.stus| && NamesTwoStops(c, c.stus[u], s, q)
    requires Rejected(c, s, c.stus[u])
    ensures !Useless(c, t, u) && (StandsFor(c, c.stus[u], t, t) <==> t == q)
  {
    assert Unambiguous(c, t, IdOf(c.stus[u]));
    assert StandsFor(c, c.stus[u], t, q);
    assert t < q ==> NumberAt(c, t) != NumberAt(c, s);
  }

  lemma NotRejectedThere(c: Context, s: nat, q: nat, u: nat)
    requires ContextOk(c) && c.from <= s < q < c.to && u < |c.stus| && NamesTwoStops(c, c.stus[u], s, q)
    ensures !Rejected(c, q, c.stus[u])
  {
  }

  /** An entry that the cursor passes without being consumed is of use to no stop
      from there on. */
  lemma {:induction false} PassedEntriesAreUseless(c: Context, s: nat, u: nat) returns (t: nat)
    requires ContextOk(c) && c.from <= s <= c.to && u < CursorBefore(c, s)
    ensures c.from <= t < s && (ConsumedAt(c, t, u) || Useless(c, t, u))
    decreases s
  {
    hide StandsFor, Rejected, SkippedTwin, ContextOk;
    if u < CursorBefore(c, s - 1) {
      t := PassedEntriesAreUseless(c, s - 1, u);
    } else {
      t := s - 1;
    }
  }

  // ---------- the loops ----------

  /** `count_if(...) < 2` */
  method OccursOnceAtMost(c: Context, s: nat, id: string) returns (r: bool)
    requires ContextOk(c) && s <= c.to
    ensures r <==> Unambiguous(c, s, id)
  {
    var count := 0;
    ghost var first := s;
    for q := s to c.to
      invariant count == 0 ==> forall p :: s <= p < q ==> IdAt(c, p) != id
      invariant count == 1 ==> s <= first < q && IdAt(c, first) == id &&
                               forall p :: s <= p < q && p != first ==> IdAt(c, p) != id
      invariant count >= 2 ==> !Unambiguous(c, s, id)
    {
      if c.ids[c.stops[q].location] == id {
        assert count == 1 ==> IdAt(c, first) == id && IdAt(c, q) == id;
        count := count + 1;
        if count == 1 {
          first := q;
        }
      }
    }
    r := count < 2;
  }

  /** The `while` loop that moves the cursor. */
  method FindUpdate(c: Context, s: nat, start: nat) returns (u: nat, matches: bool)
    requires ContextOk(c) && c.from <= s < c.to && start <= |c.stus|
    ensures u == Cursor(c, s, start) && matches == Matched(c, s, start)
  {
    u, matches := start, false;
    while u < |c.stus|
      invariant start <= u <= |c.stus| && Cursor(c, s, start) == Cursor(c, s, u) && !matches
      decreases |c.stus| - u
    {
      if u + 1 < |c.stus| && c.stus[u].relationship == Skipped && c.stus[u + 1].relationship == Scheduled &&
         c.stus[u].sequence.Some? && c.stus[u + 1].sequence == c.stus[u].sequence {
        u := u + 1;
        continue;
      }
      var q := FirstStop(c, s, c.stus[u]);
      if q == c.to {
        u := u + 1;
      } else {
        matches := q == s;
        assert StandsFor(c, c.stus[u], s, q);
        return;
      }
    }
  }

  /** The first stop from `s` on that the entry stands for, or the end. */
  method FirstStop(c: Context, s: nat, u: StopTimeUpdate) returns (q: nat)
    requires ContextOk(c) && c.from <= s < c.to
    ensures s <= q <= c.to && (q < c.to ==> StandsFor(c, u, s, q))
    ensures forall p :: s <= p < q ==> !StandsFor(c, u, s, p)
  {
    var hasSeq := c.scheduled && u.sequence.Some?;
    var once := OccursOnceAtMost(c, s, IdOf(u));
    var useStopId := !hasSeq || once;
    q := s;
    while q < c.to
      invariant s <= q <= c.to && forall p :: s <= p < q ==> !StandsFor(c, u, s, p)
    {
      if (hasSeq && u.sequence.value == c.numbers[q - c.from]) ||
         (useStopId && u.stopId.Some? && u.stopId.value == c.ids[c.stops[q].location]) {
        return;
      }
      q := q + 1;
    }
  }
}
