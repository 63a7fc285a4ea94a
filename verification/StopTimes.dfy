/** Event times of the transports of a route: the loader's event-major table and
    its compression into first departures plus interned offset patterns. */
module StopTimes {
  import opened Deltas

  /** A route as the loader hands it over: transports [from, to), the number of
      events of each and where its block of stop times begins. */
  datatype RouteBlock = RouteBlock(from: nat, to: nat, nEvents: nat, base: nat)

  datatype RouteTimes = RouteTimes(from: nat, to: nat, patternStart: nat, nPatterns: nat)

  /** Index of the first entry of event `e` in an event-major table with `n` columns. */
  function RowStart(e: nat, n: nat): nat {
    if e == 0 then 0 else RowStart(e - 1, n) + n
  }

  lemma {:induction false} RowStartIsProduct(e: nat, n: nat)
    ensures RowStart(e, n) == e * n
  {
    if e > 0 {
      RowStartIsProduct(e - 1, n);
    }
  }

  lemma {:induction false} RowsDoNotOverlap(e: nat, nEvents: nat, n: nat)
    requires e < nEvents
    ensures RowStart(e, n) + n <= RowStart(nEvents, n)
  {
    if e + 1 < nEvents {
      RowsDoNotOverlap(e, nEvents - 1, n);
    }
  }

  function Column<T>(rows: seq<seq<T>>, e: nat): seq<T>
    requires forall i :: 0 <= i < |rows| ==> e < |rows[i]|
  {
    seq(|rows|, i requires 0 <= i < |rows| => rows[i][e])
  }

  /** The first `nEvents` columns of `rows`, one after the other. */
  function EventMajor<T>(rows: seq<seq<T>>, nEvents: nat): seq<T>
    requires forall i :: 0 <= i < |rows| ==> nEvents <= |rows[i]|
  {
    if nEvents == 0 then [] else EventMajor(rows, nEvents - 1) + Column(rows, nEvents - 1)
  }

  lemma EventMajorGrows<T>(rows: seq<seq<T>>, k: nat, prefix: seq<T>)
    requires forall i :: 0 <= i < |rows| ==> k < |rows[i]|
    ensures prefix + EventMajor(rows, k + 1) == prefix + EventMajor(rows, k) + Column(rows, k)
  {
  }

  lemma {:induction false} EventMajorSize<T>(rows: seq<seq<T>>, nEvents: nat)
    requires forall i :: 0 <= i < |rows| ==> nEvents <= |rows[i]|
    ensures |EventMajor(rows, nEvents)| == RowStart(nEvents, |rows|)
  {
    if nEvents > 0 {
      EventMajorSize(rows, nEvents - 1);
    }
  }

  lemma {:induction false} EventMajorAt<T>(rows: seq<seq<T>>, nEvents: nat, e: nat, i: nat)
    requires forall k :: 0 <= k < |rows| ==> nEvents <= |rows[k]|
    requires e < nEvents && i < |rows|
    ensures RowStart(e, |rows|) + i < |EventMajor(rows, nEvents)|
    ensures EventMajor(rows, nEvents)[RowStart(e, |rows|) + i] == rows[i][e]
    ensures RowStart(e, |rows|) == e * |rows|
  {
    RowStartIsProduct(e, |rows|);
    EventMajorSize(rows, nEvents - 1);
    EventMajorSize(rows, nEvents);
    if e < nEvents - 1 {
      EventMajorAt(rows, nEvents - 1, e, i);
    }
  }

  predicate InTable(b: RouteBlock, stopTimes: seq<Delta>) {
    b.from <= b.to && b.nEvents > 0 && b.base + RowStart(b.nEvents, b.to - b.from) <= |stopTimes|
  }

  /** Time of event `e` of the route's `i`-th transport in the loader's table. */
  function StopTime(b: RouteBlock, stopTimes: seq<Delta>, e: nat, i: nat): Delta
    requires InTable(b, stopTimes) && e < b.nEvents && i < b.to - b.from
  {
    RowsDoNotOverlap(e, b.nEvents, b.to - b.from);
    stopTimes[b.base + RowStart(e, b.to - b.from) + i]
  }

  function Offsets(b: RouteBlock, stopTimes: seq<Delta>, i: nat): (o: seq<Delta>)
    requires InTable(b, stopTimes) && i < b.to - b.from
    ensures |o| == b.nEvents
  {
    seq(b.nEvents, e requires 0 <= e < b.nEvents =>
      Minus(StopTime(b, stopTimes, e, i), StopTime(b, stopTimes, 0, i)))
  }

  function OffsetRows(b: RouteBlock, stopTimes: seq<Delta>, k: nat): (rows: seq<seq<Delta>>)
    requires InTable(b, stopTimes) && k <= b.to - b.from
    ensures |rows| == k
  {
    seq(k, i requires 0 <= i < k => Offsets(b, stopTimes, i))
  }

  /** The different elements of `s`, in order of first appearance. */
  function Distinct<T(==)>(s: seq<T>): seq<T> {
    if s == [] then []
    else
      var d := Distinct(s[..|s| - 1]);
      if s[|s| - 1] in d then d else d + [s[|s| - 1]]
  }

  lemma {:induction false} DistinctElements<T(!new)>(s: seq<T>)
    ensures forall x :: x in Distinct(s) <==> x in s
    ensures forall i, j :: 0 <= i < j < |Distinct(s)| ==> Distinct(s)[i] != Distinct(s)[j]
    ensures |Distinct(s)| <= |s|
  {
    if s != [] {
      DistinctElements(s[..|s| - 1]);
      assert s == s[..|s| - 1] + [s[|s| - 1]];
    }
  }

  /** Number of patterns a route needs; the source numbers them in 16 bits. */
  function PatternCount(b: RouteBlock, stopTimes: seq<Delta>): nat
    requires InTable(b, stopTimes)
  {
    |Distinct(OffsetRows(b, stopTimes, b.to - b.from))|
  }

  /** Where the offset of event `e` is looked up. */
  function Slot(rt: RouteTimes, pattern: nat, e: nat): nat {
    rt.patternStart + RowStart(e, rt.nPatterns) + (if rt.nPatterns == 1 then 0 else pattern)
  }

  /** Event `e` of the route's `i`-th transport is kept as the transport's first
      departure and, in its pattern, the difference from it. */
  ghost predicate EventStored(b: RouteBlock, stopTimes: seq<Delta>, rt: RouteTimes,
                              firstDep: seq<Delta>, pattern: seq<nat>, offsets: seq<Delta>, e: nat, i: nat)
    requires InTable(b, stopTimes) && b.to <= |firstDep| && b.to <= |pattern|
    requires e < b.nEvents && i < b.to - b.from
  {
    && Slot(rt, pattern[b.from + i], e) < |offsets|
    && firstDep[b.from + i] == StopTime(b, stopTimes, 0, i)
    && offsets[Slot(rt, pattern[b.from + i], e)] == Minus(StopTime(b, stopTimes, e, i), StopTime(b, stopTimes, 0, i))
  }

  ghost predicate Stored(b: RouteBlock, stopTimes: seq<Delta>, rt: RouteTimes,
                         firstDep: seq<Delta>, pattern: seq<nat>, offsets: seq<Delta>)
    requires InTable(b, stopTimes)
  {
    && rt.from == b.from && rt.to == b.to
    && b.to <= |firstDep| && b.to <= |pattern|
    && forall e, i :: 0 <= e < b.nEvents && 0 <= i < b.to - b.from ==>
         EventStored(b, stopTimes, rt, firstDep, pattern, offsets, e, i)
  }

  /** Growing the offsets and touching only other transports keeps a stored route. */
  lemma StoredIsStable(b: RouteBlock, stopTimes: seq<Delta>, rt: RouteTimes,
                       firstDep: seq<Delta>, pattern: seq<nat>, offsets: seq<Delta>,
                       firstDep': seq<Delta>, pattern': seq<nat>, offsets': seq<Delta>)
    requires InTable(b, stopTimes) && Stored(b, stopTimes, rt, firstDep, pattern, offsets)
    requires |firstDep'| == |firstDep| && |pattern'| == |pattern| && offsets <= offsets'
    requires forall t :: b.from <= t < b.to ==> firstDep'[t] == firstDep[t] && pattern'[t] == pattern[t]
    ensures Stored(b, stopTimes, rt, firstDep', pattern', offsets')
  {
    forall e, i | 0 <= e < b.nEvents && 0 <= i < b.to - b.from
      ensures EventStored(b, stopTimes, rt, firstDep', pattern', offsets', e, i)
    {
      assert EventStored(b, stopTimes, rt, firstDep, pattern, offsets, e, i);
    }
  }

  ghost predicate IsNumberOf(patterns: seq<seq<Delta>>, row: seq<Delta>, number: nat) {
    exists p :: 0 <= p < |patterns| && patterns[p] == row && number == p % 0x1_0000
  }

  /** The numbers kept for transports `from`, `from` + 1, .. lead back to their rows. */
  ghost predicate Interned(rows: seq<seq<Delta>>, patterns: seq<seq<Delta>>, numbers: seq<nat>, from: nat) {
    from + |rows| <= |numbers| && forall i :: 0 <= i < |rows| ==> IsNumberOf(patterns, rows[i], numbers[from + i])
  }

  /** The transports of a compressed route lead to its patterns, as far as 16 bits
      tell patterns apart. */
  ghost predicate Numbered(b: RouteBlock, stopTimes: seq<Delta>, rt: RouteTimes, numbers: seq<nat>)
    requires InTable(b, stopTimes)
  {
    var rows := OffsetRows(b, stopTimes, b.to - b.from);
    rt.nPatterns == |Distinct(rows)| % 0x1_0000 && Interned(rows, Distinct(rows), numbers, b.from)
  }

  lemma RouteIsNumbered(b: RouteBlock, stopTimes: seq<Delta>, rt: RouteTimes, numbers: seq<nat>, patterns: seq<seq<Delta>>)
    requires InTable(b, stopTimes) && patterns == Distinct(OffsetRows(b, stopTimes, b.to - b.from))
    requires rt.nPatterns == |patterns| % 0x1_0000
    requires Interned(OffsetRows(b, stopTimes, b.to - b.from), patterns, numbers, b.from)
    ensures Numbered(b, stopTimes, rt, numbers)
  {
  }

  lemma NumberedIsStable(b: RouteBlock, stopTimes: seq<Delta>, rt: RouteTimes, numbers: seq<nat>, numbers': seq<nat>)
    requires InTable(b, stopTimes) && Numbered(b, stopTimes, rt, numbers) && |numbers'| == |numbers|
    requires forall t :: b.from <= t < b.to ==> numbers'[t] == numbers[t]
    ensures Numbered(b, stopTimes, rt, numbers')
  {
    var rows := OffsetRows(b, stopTimes, b.to - b.from);
    forall i | 0 <= i < |rows| ensures IsNumberOf(Distinct(rows), rows[i], numbers'[b.from + i]) {
      assert IsNumberOf(Distinct(rows), rows[i], numbers[b.from + i]);
    }
  }

  /** A transport with the given pattern, which it reads under that number. */
  lemma ReaderOf(b: RouteBlock, stopTimes: seq<Delta>, rt: RouteTimes, numbers: seq<nat>, p: nat) returns (i: nat)
    requires InTable(b, stopTimes) && Numbered(b, stopTimes, rt, numbers) && p < PatternCount(b, stopTimes)
    ensures i < b.to - b.from && b.from + i < |numbers| && numbers[b.from + i] == p % 0x1_0000
    ensures Offsets(b, stopTimes, i) == Distinct(OffsetRows(b, stopTimes, b.to - b.from))[p]
  {
    var rows := OffsetRows(b, stopTimes, b.to - b.from);
    DistinctElements(rows);
    assert Distinct(rows)[p] in rows;
    i :| 0 <= i < |rows| && rows[i] == Distinct(rows)[p];
    assert IsNumberOf(Distinct(rows), rows[i], numbers[b.from + i]);
  }

  /** What a stored transport reads at an event is its offset there. */
  lemma ReadsOffset(b: RouteBlock, stopTimes: seq<Delta>, rt: RouteTimes,
                    firstDep: seq<Delta>, numbers: seq<nat>, offsets: seq<Delta>, i: nat, e: nat)
    requires InTable(b, stopTimes) && Stored(b, stopTimes, rt, firstDep, numbers, offsets)
    requires i < b.to - b.from && e < b.nEvents
    ensures Slot(rt, numbers[b.from + i], e) < |offsets|
    ensures offsets[Slot(rt, numbers[b.from + i], e)] == Offsets(b, stopTimes, i)[e]
  {
    assert EventStored(b, stopTimes, rt, firstDep, numbers, offsets, e, i);
  }

  /** With 65536 patterns or more a route is not stored, whatever is written for it:
      beyond that number two patterns share a number, and at exactly that number the
      pattern count is zero, so that a transport reads the same slot at all events. */
  lemma TooManyPatterns(b: RouteBlock, stopTimes: seq<Delta>, rt: RouteTimes,
                        firstDep: seq<Delta>, numbers: seq<nat>, offsets: seq<Delta>)
    requires InTable(b, stopTimes) && Numbered(b, stopTimes, rt, numbers)
    requires PatternCount(b, stopTimes) >= 0x1_0000
    ensures !Stored(b, stopTimes, rt, firstDep, numbers, offsets)
  {
    hide Offsets, Interned, Stored;
    var patterns := Distinct(OffsetRows(b, stopTimes, b.to - b.from));
    var last := |patterns| - 1;
    DistinctElements(OffsetRows(b, stopTimes, b.to - b.from));
    assert patterns[0] != patterns[1] && patterns[0] != patterns[last];
    if Stored(b, stopTimes, rt, firstDep, numbers, offsets) {
      var i := ReaderOf(b, stopTimes, rt, numbers, 0);
      if last == 0xFFFF {
        var j := ReaderOf(b, stopTimes, rt, numbers, 1);
        AllOffsetsZero(b, stopTimes, rt, firstDep, numbers, offsets, i);
        AllOffsetsZero(b, stopTimes, rt, firstDep, numbers, offsets, j);
      } else {
        assert patterns[0] != patterns[0x1_0000];
        var j := ReaderOf(b, stopTimes, rt, numbers, 0x1_0000);
        forall e | 0 <= e < b.nEvents
          ensures Offsets(b, stopTimes, i)[e] == Offsets(b, stopTimes, j)[e]
        {
          ReadsOffset(b, stopTimes, rt, firstDep, numbers, offsets, i, e);
          ReadsOffset(b, stopTimes, rt, firstDep, numbers, offsets, j, e);
        }
      }
    }
  }

  /** With a pattern count of zero all events are read from the slot of the first
      departure. */
  lemma AllOffsetsZero(b: RouteBlock, stopTimes: seq<Delta>, rt: RouteTimes,
                       firstDep: seq<Delta>, numbers: seq<nat>, offsets: seq<Delta>, i: nat)
    requires InTable(b, stopTimes) && Stored(b, stopTimes, rt, firstDep, numbers, offsets)
    requires i < b.to - b.from && rt.nPatterns == 0
    ensures Offsets(b, stopTimes, i) == seq(b.nEvents, _ => Delta(0, 0))
  {
    hide Stored;
    forall e | 0 <= e < b.nEvents ensures Offsets(b, stopTimes, i)[e] == Delta(0, 0) {
      RowStartIsProduct(e, 0);
      ReadsOffset(b, stopTimes, rt, firstDep, numbers, offsets, i, e);
      ReadsOffset(b, stopTimes, rt, firstDep, numbers, offsets, i, 0);
    }
  }

  ghost predicate CacheOk(cache: map<seq<Delta>, nat>, patterns: seq<seq<Delta>>) {
    && (forall o :: o in cache <==> o in patterns)
    && forall p :: 0 <= p < |patterns| ==> cache[patterns[p]] == p % 0x1_0000
  }

  predicate SameOutside<T(==)>(s: seq<T>, s': seq<T>, from: nat, to: nat) {
    |s| == |s'| && forall t :: 0 <= t < |s| && !(from <= t < to) ==> s'[t] == s[t]
  }

  /** The cache after one more pattern, numbered in 16 bits. */
  function CacheWith(cache: map<seq<Delta>, nat>, patterns: seq<seq<Delta>>, o: seq<Delta>): (c: map<seq<Delta>, nat>)
    requires CacheOk(cache, patterns) && o !in patterns
    ensures CacheOk(c, patterns + [o])
  {
    cache[o := |patterns| % 0x1_0000]
  }

  method OffsetsFrom(b: RouteBlock, stopTimes: seq<Delta>, i: nat, first: Delta) returns (offsets: seq<Delta>)
    requires InTable(b, stopTimes) && i < b.to - b.from && first == StopTime(b, stopTimes, 0, i)
    ensures offsets == Offsets(b, stopTimes, i)
  {
    offsets := [];
    for e := 0 to b.nEvents
      invariant offsets == Offsets(b, stopTimes, i)[..e]
    {
      offsets := offsets + [Minus(StopTime(b, stopTimes, e, i), first)];
    }
  }

  /** The first `i` transports of the route are interned, all others untouched. */
  ghost predicate Progress(b: RouteBlock, stopTimes: seq<Delta>, i: nat, patterns: seq<seq<Delta>>,
                           firsts0: seq<Delta>, numbers0: seq<nat>, firsts: seq<Delta>, numbers: seq<nat>)
    requires InTable(b, stopTimes) && i <= b.to - b.from
  {
    && b.to <= |firsts| && b.to <= |numbers|
    && patterns == Distinct(OffsetRows(b, stopTimes, i))
    && SameOutside(firsts0, firsts, b.from, b.to)
    && SameOutside(numbers0, numbers, b.from, b.to)
    && (forall j :: 0 <= j < i ==> firsts[b.from + j] == StopTime(b, stopTimes, 0, j))
    && Interned(OffsetRows(b, stopTimes, i), patterns, numbers, b.from)
  }

  lemma ProgressStep(b: RouteBlock, stopTimes: seq<Delta>, i: nat,
                     patterns: seq<seq<Delta>>, patterns': seq<seq<Delta>>, cache: map<seq<Delta>, nat>,
                     firsts0: seq<Delta>, numbers0: seq<nat>,
                     firsts: seq<Delta>, numbers: seq<nat>, firsts': seq<Delta>, numbers': seq<nat>)
    requires InTable(b, stopTimes) && i < b.to - b.from
    requires Progress(b, stopTimes, i, patterns, firsts0, numbers0, firsts, numbers)
    requires CacheOk(cache, patterns')
    requires var o := Offsets(b, stopTimes, i);
      && patterns' == (if o in patterns then patterns else patterns + [o]) && o in patterns'
      && firsts' == firsts[b.from + i := StopTime(b, stopTimes, 0, i)]
      && numbers' == numbers[b.from + i := cache[o]]
    ensures Progress(b, stopTimes, i + 1, patterns', firsts0, numbers0, firsts', numbers')
  {
    hide Offsets, OffsetRows, Distinct, Interned, CacheOk, StopTime;
    InternedGrows(OffsetRows(b, stopTimes, i), patterns, numbers, patterns', Offsets(b, stopTimes, i), cache, b.from);
    RowsGrow(b, stopTimes, i, Offsets(b, stopTimes, i));
  }

  class Timetable {
    var transportFirstDep: seq<Delta>
    var transportPattern: seq<nat>
    var routeTimes: seq<RouteTimes>
    var patternOffsets: seq<Delta>

    constructor ()
      ensures transportFirstDep == [] && transportPattern == [] && routeTimes == [] && patternOffsets == []
    {
      transportFirstDep, transportPattern, routeTimes, patternOffsets := [], [], [], [];
    }

    /** `event_mam`: first departure plus the offset of the transport's pattern. */
    function EventMam(r: nat, t: nat, e: nat): Delta
      reads this
      requires r < |routeTimes| && t < |transportFirstDep| && t < |transportPattern|
      requires Slot(routeTimes[r], transportPattern[t], e) < |patternOffsets|
    {
      Plus(transportFirstDep[t], patternOffsets[Slot(routeTimes[r], transportPattern[t], e)])
    }

    /** `event_times_at_stop(r, ..)[i]`: the same time, seen from the route. */
    function EventTimeAt(r: nat, e: nat, i: nat): Delta
      reads this
      requires r < |routeTimes| && i < routeTimes[r].to - routeTimes[r].from
      requires routeTimes[r].to <= |transportFirstDep| && routeTimes[r].to <= |transportPattern|
      requires Slot(routeTimes[r], transportPattern[routeTimes[r].from + i], e) < |patternOffsets|
    {
      var rt := routeTimes[r];
      var offsets := patternOffsets[rt.patternStart + RowStart(e, rt.nPatterns)..];
      assert offsets[if rt.nPatterns == 1 then 0 else transportPattern[rt.from + i]]
          == patternOffsets[Slot(rt, transportPattern[rt.from + i], e)];
      Plus(transportFirstDep[rt.from + i],
           offsets[if rt.nPatterns == 1 then 0 else transportPattern[rt.from + i]])
    }

    ghost predicate RouteStored(blocks: seq<RouteBlock>, stopTimes: seq<Delta>, r: nat)
      reads this
      requires r < |blocks| && InTable(blocks[r], stopTimes)
    {
      r < |routeTimes| &&
      Stored(blocks[r], stopTimes, routeTimes[r], transportFirstDep, transportPattern, patternOffsets)
    }

    ghost predicate RouteNumbered(blocks: seq<RouteBlock>, stopTimes: seq<Delta>, r: nat)
      reads this
      requires r < |blocks| && InTable(blocks[r], stopTimes)
    {
      r < |routeTimes| && Numbered(blocks[r], stopTimes, routeTimes[r], transportPattern)
    }

    /** Routes that were compressed so far are stored exactly if 16 bits suffice. */
    ghost predicate Compressed(blocks: seq<RouteBlock>, stopTimes: seq<Delta>, r: nat)
      reads this
      requires r < |blocks| && InTable(blocks[r], stopTimes)
    {
      && RouteNumbered(blocks, stopTimes, r)
      && (RouteStored(blocks, stopTimes, r) <==> PatternCount(blocks[r], stopTimes) < 0x1_0000)
    }

    /** Every event of a stored route whose time does not lie before the
        transport's first departure is read back unchanged, and no other is. */
    lemma ReadsBack(blocks: seq<RouteBlock>, stopTimes: seq<Delta>, r: nat, i: nat, e: nat)
      requires r < |blocks| && InTable(blocks[r], stopTimes) && RouteStored(blocks, stopTimes, r)
      requires i < blocks[r].to - blocks[r].from && e < blocks[r].nEvents
      requires Normal(StopTime(blocks[r], stopTimes, e, i)) && Normal(StopTime(blocks[r], stopTimes, 0, i))
      ensures Slot(routeTimes[r], transportPattern[blocks[r].from + i], e) < |patternOffsets|
      ensures EventMam(r, blocks[r].from + i, e) == EventTimeAt(r, e, i)
      ensures EventMam(r, blocks[r].from + i, e) == StopTime(blocks[r], stopTimes, e, i)
         <==> Minutes(StopTime(blocks[r], stopTimes, 0, i)) <= Minutes(StopTime(blocks[r], stopTimes, e, i))
    {
      var a, b := StopTime(blocks[r], stopTimes, e, i), StopTime(blocks[r], stopTimes, 0, i);
      assert EventStored(blocks[r], stopTimes, routeTimes[r], transportFirstDep, transportPattern, patternOffsets, e, i);
      OffsetRoundTrip(a, b);
    }

    /** One route of `compress_stop_times`: intern the offsets of every transport. */
    method InternRoute(b: RouteBlock, stopTimes: seq<Delta>) returns (patterns: seq<seq<Delta>>)
      requires InTable(b, stopTimes) && b.to <= |transportFirstDep| && b.to <= |transportPattern|
      modifies this`transportFirstDep, this`transportPattern
      ensures patterns == Distinct(OffsetRows(b, stopTimes, b.to - b.from))
      ensures SameOutside(old(transportFirstDep), transportFirstDep, b.from, b.to)
      ensures SameOutside(old(transportPattern), transportPattern, b.from, b.to)
      ensures forall i :: 0 <= i < b.to - b.from ==>
        transportFirstDep[b.from + i] == StopTime(b, stopTimes, 0, i)
      ensures Interned(OffsetRows(b, stopTimes, b.to - b.from), patterns, transportPattern, b.from)
    {
      patterns := [];
      var cache: map<seq<Delta>, nat> := map[];
      var n := b.to - b.from;
      for i := 0 to n
        invariant CacheOk(cache, patterns)
        invariant Progress(b, stopTimes, i, patterns, old(transportFirstDep), old(transportPattern),
                           transportFirstDep, transportPattern)
      {
        ghost var patterns0, firsts, numbers := patterns, transportFirstDep, transportPattern;
        patterns, cache := InternTransport(b, stopTimes, i, patterns, cache);
        ProgressStep(b, stopTimes, i, patterns0, patterns, cache, old(transportFirstDep), old(transportPattern),
                     firsts, numbers, transportFirstDep, transportPattern);
      }
    }

    method InternTransport(b: RouteBlock, stopTimes: seq<Delta>, i: nat,
                           patterns: seq<seq<Delta>>, cache: map<seq<Delta>, nat>)
      returns (patterns': seq<seq<Delta>>, cache': map<seq<Delta>, nat>)
      requires InTable(b, stopTimes) && i < b.to - b.from
      requires b.to <= |transportFirstDep| && b.to <= |transportPattern|
      requires CacheOk(cache, patterns)
      modifies this`transportFirstDep, this`transportPattern
      ensures CacheOk(cache', patterns')
      ensures var o := Offsets(b, stopTimes, i);
        && patterns' == (if o in patterns then patterns else patterns + [o])
        && o in patterns'
        && transportFirstDep == old(transportFirstDep)[b.from + i := StopTime(b, stopTimes, 0, i)]
        && transportPattern == old(transportPattern)[b.from + i := cache'[o]]
    {
      transportFirstDep := transportFirstDep[b.from + i := StopTime(b, stopTimes, 0, i)];
      var offsets := OffsetsFrom(b, stopTimes, i, transportFirstDep[b.from + i]);
      patterns', cache' := patterns, cache;
      if offsets !in cache {
        cache' := CacheWith(cache, patterns, offsets);
        patterns' := patterns + [offsets];
      }
      transportPattern := transportPattern[b.from + i := cache'[offsets]];
    }

    /** The second half: the patterns of a route, written event by event. */
    method AppendPatterns(patterns: seq<seq<Delta>>, nEvents: nat)
      requires forall p :: 0 <= p < |patterns| ==> |patterns[p]| == nEvents
      modifies this`patternOffsets
      ensures patternOffsets == old(patternOffsets) + EventMajor(patterns[..|patterns| % 0x1_0000], nEvents)
    {
      var n := |patterns| % 0x1_0000;
      for e := 0 to nEvents
        invariant patternOffsets == old(patternOffsets) + EventMajor(patterns[..n], e)
      {
        ghost var before := patternOffsets;
        for p := 0 to n
          invariant patternOffsets == before + Column(patterns[..n], e)[..p]
        {
          patternOffsets := patternOffsets + [patterns[p][e]];
        }
      }
    }

    /** `compress_stop_times` over all routes: exactly those are stored whose patterns
        can be told apart by 16 bits. */
    method CompressStopTimes(blocks: seq<RouteBlock>, stopTimes: seq<Delta>, nTransports: nat)
      requires routeTimes == []
      requires forall r :: 0 <= r < |blocks| ==> InTable(blocks[r], stopTimes) && blocks[r].to <= nTransports
      requires forall r, q :: 0 <= r < q < |blocks| ==> blocks[r].to <= blocks[q].from
      modifies this
      ensures |routeTimes| == |blocks|
      ensures |transportFirstDep| == |transportPattern| == nTransports
      ensures forall r :: 0 <= r < |blocks| ==>
        (RouteStored(blocks, stopTimes, r) <==> PatternCount(blocks[r], stopTimes) < 0x1_0000)
    {
      transportFirstDep := seq(nTransports, _ => Delta(0, 0));
      transportPattern := seq(nTransports, _ => 0);
      for r := 0 to |blocks|
        invariant |routeTimes| == r
        invariant |transportFirstDep| == |transportPattern| == nTransports
        invariant forall q :: 0 <= q < r ==> Compressed(blocks, stopTimes, q)
      {
        CompressRoute(blocks, stopTimes, r);
      }
      forall r | 0 <= r < |blocks|
        ensures RouteStored(blocks, stopTimes, r) <==> PatternCount(blocks[r], stopTimes) < 0x1_0000
      {
        assert Compressed(blocks, stopTimes, r);
      }
    }

    method CompressRoute(blocks: seq<RouteBlock>, stopTimes: seq<Delta>, r: nat)
      requires r < |blocks| && |routeTimes| == r
      requires forall q :: 0 <= q < |blocks| ==>
        InTable(blocks[q], stopTimes) && blocks[q].to <= |transportFirstDep| == |transportPattern|
      requires forall q, q' :: 0 <= q < q' < |blocks| ==> blocks[q].to <= blocks[q'].from
      modifies this
      ensures |routeTimes| == r + 1
      ensures |transportFirstDep| == |transportPattern| == old(|transportFirstDep|)
      ensures Compressed(blocks, stopTimes, r)
      ensures forall q :: 0 <= q < r && old(RouteStored(blocks, stopTimes, q)) ==> RouteStored(blocks, stopTimes, q)
      ensures forall q :: 0 <= q < r && old(Compressed(blocks, stopTimes, q)) ==> Compressed(blocks, stopTimes, q)
    {
      hide Interned, Stored, Numbered;
      var b := blocks[r];
      var patterns := InternRoute(b, stopTimes);
      var start := |patternOffsets|;
      routeTimes := routeTimes + [RouteTimes(b.from, b.to, start, |patterns| % 0x1_0000)];
      DistinctElements(OffsetRows(b, stopTimes, b.to - b.from));
      forall p | 0 <= p < |patterns| ensures |patterns[p]| == b.nEvents {
        assert patterns[p] in OffsetRows(b, stopTimes, b.to - b.from);
      }
      AppendPatterns(patterns, b.nEvents);
      RouteIsNumbered(b, stopTimes, routeTimes[r], transportPattern, patterns);
      if |patterns| < 0x1_0000 {
        assert patterns[..|patterns|] == patterns;
        RouteIsStored(b, stopTimes, routeTimes[r], transportFirstDep, transportPattern, patternOffsets, patterns);
      } else {
        TooManyPatterns(b, stopTimes, routeTimes[r], transportFirstDep, transportPattern, patternOffsets);
      }
      forall q | 0 <= q < r && old(RouteStored(blocks, stopTimes, q))
        ensures RouteStored(blocks, stopTimes, q)
      {
        assert routeTimes[q] == old(routeTimes)[q] && blocks[q].to <= b.from;
        StoredIsStable(blocks[q], stopTimes, routeTimes[q],
                       old(transportFirstDep), old(transportPattern), old(patternOffsets),
                       transportFirstDep, transportPattern, patternOffsets);
      }
      forall q | 0 <= q < r && old(Compressed(blocks, stopTimes, q))
        ensures Compressed(blocks, stopTimes, q)
      {
        assert routeTimes[q] == old(routeTimes)[q] && blocks[q].to <= b.from;
        NumberedIsStable(blocks[q], stopTimes, routeTimes[q], old(transportPattern), transportPattern);
        if PatternCount(blocks[q], stopTimes) >= 0x1_0000 {
          TooManyPatterns(blocks[q], stopTimes, routeTimes[q], transportFirstDep, transportPattern, patternOffsets);
        }
      }
    }
  }

  lemma RowsGrow(b: RouteBlock, stopTimes: seq<Delta>, i: nat, offsets: seq<Delta>)
    requires InTable(b, stopTimes) && i < b.to - b.from && offsets == Offsets(b, stopTimes, i)
    ensures OffsetRows(b, stopTimes, i + 1) == OffsetRows(b, stopTimes, i) + [offsets]
    ensures Distinct(OffsetRows(b, stopTimes, i + 1))
         == var d := Distinct(OffsetRows(b, stopTimes, i)); if offsets in d then d else d + [offsets]
  {
    var rows := OffsetRows(b, stopTimes, i);
    assert OffsetRows(b, stopTimes, i + 1) == rows + [offsets];
    assert (rows + [offsets])[..i] == rows;
  }

  lemma InternedGrows(rows: seq<seq<Delta>>, patterns: seq<seq<Delta>>, numbers: seq<nat>,
                      patterns': seq<seq<Delta>>, row: seq<Delta>, cache: map<seq<Delta>, nat>, from: nat)
    requires Interned(rows, patterns, numbers, from) && patterns <= patterns'
    requires from + |rows| < |numbers|
    requires CacheOk(cache, patterns') && row in patterns'
    ensures Interned(rows + [row], patterns', numbers[from + |rows| := cache[row]], from)
  {
    var numbers' := numbers[from + |rows| := cache[row]];
    forall i | 0 <= i < |rows| + 1
      ensures IsNumberOf(patterns', (rows + [row])[i], numbers'[from + i])
    {
      if i < |rows| {
        assert IsNumberOf(patterns, rows[i], numbers[from + i]);
        var p :| 0 <= p < |patterns| && patterns[p] == rows[i] && numbers[from + i] == p % 0x1_0000;
        assert patterns'[p] == rows[i];
      } else {
        var p :| 0 <= p < |patterns'| && patterns'[p] == row;
        assert cache[patterns'[p]] == p % 0x1_0000;
      }
    }
  }

  lemma RouteIsStored(b: RouteBlock, stopTimes: seq<Delta>, rt: RouteTimes,
                      firstDep: seq<Delta>, pattern: seq<nat>, offsets: seq<Delta>, patterns: seq<seq<Delta>>)
    requires InTable(b, stopTimes) && rt.from == b.from && rt.to == b.to
    requires b.to <= |firstDep| && b.to <= |pattern|
    requires forall i :: 0 <= i < b.to - b.from ==> firstDep[b.from + i] == StopTime(b, stopTimes, 0, i)
    requires Interned(OffsetRows(b, stopTimes, b.to - b.from), patterns, pattern, b.from)
    requires |patterns| < 0x1_0000 && rt.nPatterns == |patterns|
    requires forall p :: 0 <= p < |patterns| ==> |patterns[p]| == b.nEvents
    requires rt.patternStart + |EventMajor(patterns, b.nEvents)| == |offsets|
    requires offsets[rt.patternStart..] == EventMajor(patterns, b.nEvents)
    ensures Stored(b, stopTimes, rt, firstDep, pattern, offsets)
  {
    forall e, i | 0 <= e < b.nEvents && 0 <= i < b.to - b.from
      ensures EventStored(b, stopTimes, rt, firstDep, pattern, offsets, e, i)
    {
      var rows := OffsetRows(b, stopTimes, b.to - b.from);
      assert IsNumberOf(patterns, rows[i], pattern[b.from + i]);
      var p :| 0 <= p < |patterns| && patterns[p] == rows[i] && pattern[b.from + i] == p % 0x1_0000;
      assert p == pattern[b.from + i];
      EventMajorAt(patterns, b.nEvents, e, p);
      assert offsets[rt.patternStart..][RowStart(e, |patterns|) + p] == patterns[p][e];
      assert rows[i] == Offsets(b, stopTimes, i);
    }
  }
}
