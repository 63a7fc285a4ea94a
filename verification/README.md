# Transit router: verified models of its critical parts

nigiri is a transit router. Its loader packs trips into routes, compresses their
event times, merges duplicate services and closes the graph of footpaths; its
router looks up departures, prunes with travel time lower bounds, applies
real-time updates and extends the search interval until enough journeys are
found. The Dafny files here model these parts and prove what the rest of the
router relies on. `dafny verify dfyconfig.toml` checks all of it.

## What is modelled

| files | component |
|---|---|
| `Deltas`, `StopTimes` | packed event times and the lossless compression of stop times |
| `Grouping`, `EarliestTransport` | which trips share a route, and why the first departure found is the best one |
| `Dial`, `Dijkstra` | the bucket queue and the search that runs on it, with cut-off and real-time edges |
| `Locations`, `LowerBoundGraph`, `RtLowerBounds`, `LowerBounds` | travel time lower bounds: contraction to root stations, real-time overlay, seeding, search, hand-down, admissibility |
| `ProfileBounds` | the bounds of one query from the network on, and for which profiles they are admissible with real-time data |
| `EdgeLists`, `FootpathComponents`, `FootClosure`, `Footpaths` | components of the raw foot graph, their shortest-path closure, the final layers |
| `Intervals`, `RtTimetable` | the real-time overlay as a state machine: copied traffic days, real-time copies, coverage, and when the overlay may be ignored |
| `UpdateMatching`, `DelayPropagation`, `GtfsrtUpdate`, `UpdateLaws` | trip updates: cursor, propagation along the run, closing pass, and what each part of an entry does to its event and its stop |
| `TransportMerging`, `MergeDuplicates` | duplicate services: sliding window, merging, which routes are compared |
| `TdFootpath` | time-dependent footpaths in both directions |
| `Fares` | joining fare legs into transfers |
| `SparseVecvec` | sparse and interned lists of rows |
| `ParetoSet` | the set of best journeys |
| `IntervalEstimate`, `SearchLoop` | growth of the search interval and termination of the search loop |
| `Basics` | options, bounds, 16-bit narrowing, truncating division |

Code that the source writes as loops over vectors and fields is written as
methods with loops here, proved against functions or predicates; what those
promise is proved as lemmas. Conventions: times are minutes; a day of a service is
a number; sets of days stand for bitfields; indices that the source narrows to 16
or 8 bits are narrowed explicitly (`Wrap16`, `Wrap8`, `% 0x1_0000`).

Preconditions state what the source takes for granted: event times of a transport
are not negative, do not decrease and stay below 32 days; parents come before
their children and agree with the children lists; the raw foot graph has a way
back for every way; the incoming footpaths of a layer are its outgoing ones, listed where
they end, as the footpath builder writes them; offsets of a query fit the buckets of the queue; numbers of real-time bitfields
leave the flag bit free; real-time updates for a run find a copy of the run's own
shape.

## What the proofs found

- `get_index` can reject a trip that would fit: exactly if one of the rows it would
  follow departs at the same minute of the day and is another one
  (`Grouping.WronglyRejectedIff`). Without such a tie rejection is final.
- `get_root_idx` falls back to the direct parent of locations that are nested more
  than 21 levels deep; it is right exactly up to that depth.
- Patterns of a route are numbered in 16 bits: a route is stored if and only if it has
  fewer than 65536 patterns, and its events are read back exactly if they do not lie
  before the first departure. A grouped route has at most 1439 patterns per event and
  one more, so that routes with at most 23 stops never reach the limit.
- The real-time lower-bound edges are computed against the default profile. For another
  profile the bounds are admissible with all real-time data and queries if and only if
  wherever the default graph has an edge, a walk in the profile's own graph is no longer
  (`ProfileBounds.ServedIff`). Where that fails there is a ride that the bound of its
  start exceeds; `ProfileBounds.ProfileGap` computes one for bikes. The search of the
  source pairs any profile's graph with this overlay.
- Pairs of locations are not closed like larger components: they keep their raw
  durations in both directions and have no cut-off; `FootClosure.PairSymmetricIff`
  says when such a pair is symmetric.
- Replacement trips start with zero times that the coverage does not contain. Whether
  an interval outside the coverage is unaffected then depends exactly on those times
  (`RealTime.RtTimetable.DroppingIsSoundIff`). A zero time can outlive the update: it
  does if the first entry has an arrival time and a departure without data
  (`GtfsrtUpdate.ReplacementEscapes`).
- A track change to an unknown or non-equivalent stop drops the events of that stop
  from the update, so that some event gets no command exactly if this happens
  (`GtfsrtUpdate.CommandsAreGaplessIff`), and leaves its entry unconsumed. An entry that
  has the number of one stop and the id of a later one then keeps the stops in between
  from their entries and is applied to the later stop
  (`UpdateMatching.RejectedEntryReturns`).
- `overlaps` reports an overlap for an empty interval strictly inside another one;
  for the coverage test this errs on the safe side.
- `transfer_count` is an 8-bit number. A negative count does reach zero, after at
  most 255 transfers; a count of zero makes no progress.
- Journeys of different directions never dominate each other, so the Pareto
  property needs no restriction to one direction; a journey without duration
  counts as forward.
- Rounding to whole days makes the largest search interval one day larger than
  `kMaxSearchIntervalSize` exactly in the cases of
  `IntervalEstimate.RoundingExceedsTheMaximumIff`: the maximum is the bound at both
  ends and the lower end lies at noon of an even day.
- The waiting limit of the backward lookup of time-dependent footpaths looks at the
  latest departure alone. It hides an arrival in time exactly if a departure is
  overtaken by a later one in the way of `TdFootpath.LimitHidesIff`, and never if later
  departures do not arrive earlier.

## Model

| member | source | states |
|---|---|---|
| `Deltas.OffsetRoundTrip` | include/nigiri/types.h:618-629 | for stored times a and b, b + (a - b) gives a back if and only if a is not before b (packed 5-bit days, 11-bit minutes, 16-bit wrap-around) |
| `Deltas.MinusExact` | include/nigiri/types.h:618-621 | the difference of two stored times is exact and itself storable as long as it is not negative |
| `Deltas.PlusExact` | include/nigiri/types.h:623-629 | the sum of two stored times below 32 days is exact and storable, with the carry from minutes to days |
| `Deltas.WrappedOffset` | include/nigiri/types.h:618-629 | an offset that wrapped comes back at the minute of the day shifted by 736, never at the original one |
| `Basics.TruncatesTowardsZero` | src/rt/gtfsrt_update.cc:145-157 | seconds become minutes by dropping less than a minute, of the sign of the seconds |
| `Basics.WrapsBy16Bits` | include/nigiri/types.h:643 | narrowing keeps a signed 16-bit number that differs by a multiple of 2^16 |
| `StopTimes.Timetable.InternRoute` | src/loader/compress_stop_times.cc:34-44 | one route: first departures are stored, each transport gets the number of its own offset pattern, patterns are exactly the distinct ones in order of appearance, other transports keep their entries |
| `StopTimes.Timetable.AppendPatterns` | src/loader/compress_stop_times.cc:51-55 | appends the patterns event by event and leaves all earlier offsets in place |
| `StopTimes.Timetable.CompressRoute` | src/loader/compress_stop_times.cc:21-56 | after one route it is stored if and only if it has fewer than 65536 patterns, and every route before keeps what it was, stored or not |
| `StopTimes.Timetable.CompressStopTimes` | src/loader/compress_stop_times.cc:12-56 | a route is stored, each event as first departure plus pattern offset, if and only if it has fewer than 65536 patterns |
| `StopTimes.TooManyPatterns` | src/loader/compress_stop_times.cc:40-54 | with 65536 patterns or more some event cannot be read back, whatever offsets are written: two patterns share a number, or the count of patterns is zero |
| `Grouping.GroupedRouteHasFewPatterns` | include/nigiri/loader/get_index.h:32-50 | the rows of a grouped route are a chain within a day at every event, so it needs at most 1439 patterns per event and one more: below the limit for up to 45 events |
| `StopTimes.Timetable.ReadsBack` | include/nigiri/timetable.h:154-179 | event_mam and event_times_at_stop agree on every event of a stored route, and give the loader's time back if and only if that event is not before the first departure |
| `StopTimes.StoredIsStable` | src/loader/compress_stop_times.cc:21-56 | writing other transports and appending offsets never disturbs a stored route |
| `StopTimes.EventMajorAt` | src/loader/compress_stop_times.cc:27-29 | entry e * n + i of the event-major table is event e of row i |
| `Grouping.FindLowerBound` | include/nigiri/loader/get_index.h:13-19 | the binary search finds the only position whose predecessors depart strictly earlier in the day and whose successors do not |
| `Grouping.GetIndex` | include/nigiri/loader/get_index.h:10-54 | returns the lower-bound position exactly if inserting there keeps all rows ordered in full time and in time of day with a spread below a day at every event, else rejects |
| `Grouping.EventsFitIffFifo` | include/nigiri/loader/get_index.h:21-51 | checking the two neighbours and the two ends of the route is equivalent to the invariant between all pairs of rows |
| `Grouping.WronglyRejectedIff` | include/nigiri/loader/get_index.h:13-53 | a trip that fits at some position is rejected if and only if a different row before that position departs at the same minute of the day; otherwise the route becomes the same |
| `Grouping.RejectionIsFinal` | include/nigiri/loader/get_index.h:13-53 | unless a row departs at the same minute of the day, a rejected trip fits at no position at all |
| `Grouping.TieIsRejectedThoughItFits` | include/nigiri/loader/get_index.h:13-30 | with an equal first departure a trip can be rejected although it fits behind the other row |
| `Grouping.CommonDayOffset` | include/nigiri/loader/get_index.h:32-50 | all transports of a grouped route have the same day offset at every event |
| `Grouping.LexicographicIsTemporal` | include/nigiri/loader/get_index.h:32-34 | ordering runs by (service day, row) orders their events in absolute time at every stop |
| `Grouping.Place` | src/loader/gtfs/load_timetable.cc:285-292 | first fit: the trip goes into the first sub-route with a position for it, else into a new one |
| `Grouping.RouteServices.AddExpandedTrip` | src/loader/gtfs/load_timetable.cc:268-301 | the routes afterwards are those before with the trip placed under its key; every sub-route stays FIFO |
| `Grouping.FirstFitKeepsAll` | src/loader/gtfs/load_timetable.cc:284-300 | placing a trip adds exactly that trip and keeps every sub-route FIFO |
| `Grouping.GroupingIsPartition` | src/loader/gtfs/load_timetable.cc:282-300 | after any sequence of trips the sub-routes of a key hold exactly the trips added under it, each once, and each sub-route is FIFO |
| `Grouping.AddingOpensIff` | src/loader/gtfs/load_timetable.cc:284-291 | a trip opens a new sub-route if and only if no sub-route of its key has a position for it, and concerns no other key |
| `Grouping.WriteStopTimes` | src/loader/gtfs/load_timetable.cc:468-483 | the writer appends the event-major table of the grouped rows: all departures at a stop, then all arrivals at the next |
| `Grouping.GroupedTimesSurvive` | include/nigiri/timetable.h:154-179 | from grouping to lookup: the time of every event of every grouped transport is read back through the transport and through the route |
| `EarliestTransport.GetEarliestTransport` | include/nigiri/routing/get_earliest_transport.h:14-97 | forward and backward: the result is active, usable, in the two-day window and not worse than the destination bound, it is at least as good as every other active usable run at every event of the route, and with a monotone bound none is returned only if every active run of the window is worse |
| `EarliestTransport.StoredRouteIsRouteAt` | include/nigiri/timetable.h:154-164 | the times that a grouped, written and compressed route shows at an event are what the lookup takes for granted |
| `EarliestTransport.SeekFirstDay` | include/nigiri/common/linear_lower_bound.h:8-15 | finds the first time in scan order that is not better than the requested minute |
| `EarliestTransport.FirstIsBest` | include/nigiri/routing/get_earliest_transport.h:60-96 | the first active run in scan order is at no event worse than any other usable one |
| `EarliestTransport.RestIsWorse` | include/nigiri/routing/get_earliest_transport.h:77-79 | stopping at the first time that is worse than a monotone bound loses no run of the window that is not worse |
| `Dial.Dial.Push` | include/nigiri/common/dial.h:25-32 | adds exactly one label to the multiset the buckets stand for |
| `Dial.Dial.Top` | include/nigiri/common/dial.h:34-39 | shows a label of least distance and keeps the contents |
| `Dial.Dial.Pop` | include/nigiri/common/dial.h:41-46 | removes exactly the label that top shows |
| `Dial.Dial.GetNextBucket` | include/nigiri/common/dial.h:65-72 | finds the first non-empty bucket of the whole queue from the current one on |
| `Dial.Dial.Clear` | include/nigiri/common/dial.h:52-58 | empties all buckets and keeps their number |
| `Dial.Dial.SetBuckets` | include/nigiri/common/dial.h:60 | changes the number of buckets and keeps the contents, if the buckets cut off are empty |
| `Dijkstra.Search` | include/nigiri/routing/dijkstra.h:32-70 | lazy-deletion search over static and real-time edges: it terminates, the queue is empty, changed distances are attained by a start label and a walk and lie below the cut-off, and no walk shorter than the cut-off is faster than the distance of its end |
| `Dijkstra.ExpandAll` | include/nigiri/routing/dijkstra.h:49-68 | relaxing the edges of a node keeps the invariant and lowers the sum of the distances or changes nothing |
| `Dijkstra.LoweringKeeps` | include/nigiri/routing/dijkstra.h:52-56 | lowering one distance and queueing its label keeps the search invariant |
| `Dijkstra.WalksAreBounded` | include/nigiri/routing/dijkstra.h:41-70 | with an empty queue every walk below the cut-off is matched by the distance of its end |
| `Locations.GetRootIdx` | include/nigiri/timetable.h:65-78 | returns the root station if and only if the location is nested at most 21 levels deep |
| `Locations.ForEachMeta` | include/nigiri/for_each_meta.h:8-46 | visits exactly the locations that the match mode lets a location stand for, at any depth of nesting |
| `Locations.MetaThroughParents` | include/nigiri/for_each_meta.h:8-46 | each mode seen from the location visited, through its parents: itself; a generated track right below; up to two steps below; up to two steps below the root or an equivalent |
| `LowerBoundGraph.FastestRide` | include/nigiri/loader/build_lb_graph.h:60-65 | the least ride time of a section over all transports of the route |
| `LowerBoundGraph.AddEdges` | include/nigiri/loader/build_lb_graph.h:24-69 | the weights afterwards are the least durations of all footpaths and admitted sections that touch the location and lead to another root |
| `LowerBoundGraph.BuildLbGraph` | include/nigiri/loader/build_lb_graph.h:11-101 | roots get one edge per neighbouring root, the least duration offered anywhere below them clamped to 511 minutes; other locations get none |
| `LowerBoundGraph.RideIsCovered` | include/nigiri/loader/build_lb_graph.h:43-67 | a ride from one stop of a route to the next, between different roots, has a graph edge that is no longer: back from its end in a forward search, from its start on in a backward one |
| `LowerBoundGraph.WalkIsCovered` | include/nigiri/loader/build_lb_graph.h:27-35 | so has every outgoing footpath of the profile between different roots, whichever layer the builder reads |
| `LowerBoundGraph.EdgeIsConnection` | include/nigiri/loader/build_lb_graph.h:24-97 | conversely every edge stands, against the search direction, for an outgoing footpath of the profile or a section open to it, with the time of its fastest ride, clamped |
| `LowerBoundGraph.LbGraphIsGraph` | include/nigiri/loader/build_lb_graph.h:74-101 | all edges lead from a root to another root, at most one to each, and have at most 511 minutes |
| `RtLowerBounds.Update` | src/rt/rt_timetable.cc:240-300 | one direction of add_lb_edge: nothing gets worse, the edge is matched by a scheduled or stored one, nothing else is added, and something is added exactly if neither row has a first edge to the target that is as fast |
| `RtLowerBounds.SlowSegmentIsCovered` | src/rt/rt_timetable.cc:302-367 | a segment that is no faster than its scheduled section is covered by the scheduled graph |
| `RtLowerBounds.RtBounds.UpdateLbs` | src/rt/rt_timetable.cc:302-367 | in both directions every real-time segment of non-negative travel time between different roots has an edge in the union that is no longer, and every real-time edge is the clamped time of such a segment for which the scheduled row has no edge that is as fast |
| `LowerBounds.SeedMin` | src/routing/dijkstra.cc:27-47 | per root the least offset of all destinations and usable time-dependent offsets that belong to it |
| `LowerBounds.PushSeeds` | src/routing/dijkstra.cc:49-57 | pushes exactly the labels of the locations that the roots stand for; distances are the least labels |
| `LowerBounds.Propagate` | src/routing/dijkstra.cc:61-66 | every location ends with the least distance on its way up to the root |
| `LowerBounds.ComputeLowerBounds` | src/routing/dijkstra.cc:18-67 | seeds, search and propagation together: all that the bounds theorems build on |
| `LowerBounds.ItineraryAsWalk` | include/nigiri/loader/build_lb_graph.h:24-100 | every itinerary becomes a walk between roots in the contracted graph, in the other direction, that takes at most as long |
| `LowerBounds.UnionCoversMoves` | src/rt/rt_timetable.cc:302-367 | in the scheduled graph with the overlay every ride, real-time ride and footpath that a traveller takes is matched by a walk, against the search direction, that is no longer; for another profile than the default one if its walks are nowhere slower than the default edges |
| `LowerBounds.BoundsAreAdmissible` | src/routing/dijkstra.cc:24-66 | no itinerary that reaches a destination within the longest travel time, offset included, takes less than the bound of its start |
| `LowerBounds.BoundsAreAttained` | src/routing/dijkstra.cc:24-66 | a bound below the cut-off is the length of a walk in the graph from a seed to the location or one above it |
| `LowerBounds.LowerBoundTheorem` | src/routing/dijkstra.cc:18-67 | graph of the profile, real-time overlay and search composed: all bounds are admissible |
| `ProfileBounds.QueryBounds` | include/nigiri/routing/search.h:117-129 | from network, real-time transports and query to bounds: admissible without real-time data, for the default profile, and for every profile whose walks are nowhere slower than the default edges |
| `ProfileBounds.SkippedRideIsMissed` | src/rt/rt_timetable.cc:264-266 | a real-time ride that the overlay leaves out for a default edge, while the profile has no walk as fast, is shorter than the bound of its start, whatever the search ends with |
| `ProfileBounds.BoundsExist` | src/routing/dijkstra.cc:18-67 | for a query for one station there are bounds as the search leaves them |
| `ProfileBounds.ServedIff` | include/nigiri/routing/search.h:117-129 | with all real-time data and all queries the bounds of a profile are admissible if and only if its walks are nowhere slower than the edges of the default profile |
| `ProfileBounds.ProfileGap` | src/rt/rt_timetable.cc:296-299 | two stations, a bike route of 10 minutes and another of 5: the bike route's ride of 7 minutes is below the bound computed for bikes |
| `FootpathComponents.FindComponents` | src/loader/build_footpaths.cc:88-121 | labels every location that has footpaths with the least location of its component, all others with none |
| `FootpathComponents.SameLabelIffConnected` | src/loader/build_footpaths.cc:88-121 | two locations with footpaths have the same label if and only if there is a walk between them |
| `FootpathComponents.SearchStep` | src/loader/build_footpaths.cc:104-116 | popping, labelling and pushing the neighbours keeps the invariant of the depth-first search |
| `Footpaths.BuildComponentGraph` | src/loader/build_footpaths.cc:183-227 | the local graph has exactly the raw edges between the nodes, in both directions, raised to the transfer times |
| `Footpaths.SearchFrom` | src/loader/build_footpaths.cc:290-317 | one search yields exactly the locations below the limit with their shortest durations |
| `Footpaths.ProcessPair` | src/loader/build_footpaths.cc:146-181 | a pair keeps its raw footpaths, raised to the transfer times, without cut-off |
| `Footpaths.WriteRow` | src/loader/build_footpaths.cc:322-344 | the results of a search are written unchanged to the out layer and mirrored in the in layer |
| `Footpaths.ConnectComponents` | src/loader/build_footpaths.cc:229-345 | the out layer is the connected foot graph: nothing, the pair's footpath or the closure row; the in layer is its mirror image with multiplicities |
| `Footpaths.PairIffTwo` | src/loader/build_footpaths.cc:254-263 | a component has two members exactly if the two have no neighbour but each other |
| `FootClosure.TransfersChangeNothing` | src/loader/build_footpaths.cc:327-330 | the final maximum with the transfer times leaves every closure edge as it is |
| `FootClosure.ClosureIsTransitive` | src/loader/build_footpaths.cc:290-317 | two closure edges in a row that stay below the limit are matched by a direct one that is no longer |
| `FootClosure.ClosureIsSymmetric` | src/loader/build_footpaths.cc:212-215 | closure edges exist in both directions with equal duration |
| `FootClosure.RawEdgesAreCovered` | src/loader/build_footpaths.cc:200-216 | a raw footpath below the limit keeps a closure edge that is no longer than the longest of it and the transfer times at its ends |
| `FootClosure.ConnectedIsSymmetric` | src/loader/build_footpaths.cc:229-345 | outside pairs the connected graph is symmetric |
| `FootClosure.ConnectedIsTransitive` | src/loader/build_footpaths.cc:229-345 | outside pairs the connected graph is closed under concatenation below the limit |
| `FootClosure.PairSymmetricIff` | src/loader/build_footpaths.cc:174-180 | a pair is symmetric if and only if both raw directions are raised to the same duration |
| `EdgeLists.ShortestPerTarget` | src/loader/build_footpaths.cc:433-442 | one edge per target, exactly the cheapest ones |
| `EdgeLists.EraseDuplicates` | src/loader/build_footpaths.cc:219-222 | sorted and without repetition, with the same members |
| `Footpaths.WriteFootpaths` | src/loader/build_footpaths.cc:413-460 | out rows: the cheapest edge per target, shortest first; in rows: exactly the transpose of the out layer, shortest first |
| `Footpaths.BuildFootpaths` | src/loader/build_footpaths.cc:466-481 | raw footpaths to final layers: the out layer is the closure outside pairs, the in layer its transpose |
| `Footpaths.RawFootpathIsKept` | src/loader/build_footpaths.cc:200-216 | where a raw footpath and the transfers at both its ends take at most m, below the limit or in a pair, there is a final footpath of at most m |
| `Footpaths.PairTakesTheLongest` | src/loader/build_footpaths.cc:157-180 | the final footpath of a pair takes as long as the longest of its own raw direction and the transfers at both ends |
| `Footpaths.FinalFootpathsAreQuickestWays` | src/loader/build_footpaths.cc:183-345 | outside pairs a final footpath takes exactly as long as the quickest way along raw footpaths, each counted with the longest of it and the transfers at its ends, and there is one exactly if that way stays below the limit |
| `Intervals.HullIsLeast` | include/nigiri/common/interval.h:93-102 | no interval with the points of both misses a point of their hull |
| `Intervals.OverlapIffCommonPoint` | include/nigiri/common/interval.h:79-81 | two non-empty intervals overlap if and only if they share a point |
| `Intervals.OverlapWithoutCommonPointIff` | include/nigiri/common/interval.h:79-81 | there is overlap without a common point exactly if an empty interval lies strictly inside the other one |
| `RealTime.RtTimetable.constructor` | src/rt/create_rt_timetable.cc:11-46 | a fresh overlay: valid, nothing removed, empty coverage |
| `RealTime.RtTimetable.ClearDay` | src/rt/rt_timetable.cc:35-37 | copy on write: exactly one run becomes inactive, all other transports and days are untouched |
| `RealTime.RtTimetable.UpdateTime` | include/nigiri/rt/rt_timetable.h:105-119 | refuses exactly the times outside the representable interval; else stores the exact time and state and extends the coverage |
| `RealTime.RtTimetable.StorableIff` | include/nigiri/rt/rt_timetable.h:78-83 | a time can be stored exactly if its distance from the base day fits 16 bits and is neither extreme number |
| `RealTime.DeltasCountFromBaseDay` | include/nigiri/rt/rt_timetable.h:71-76 | the copy of a run on the base day counts from midnight, each later day 1440 minutes more |
| `RealTime.RtTimetable.InitialInterval` | include/nigiri/rt/rt_timetable.h:142-150 | first and last event of a copy bound all its events, clamped times included |
| `RealTime.RtTimetable.AddRtTransport` | src/rt/rt_timetable.cc:16-176 | appends the copy with its times and stops, makes exactly the replaced run inactive and grows the coverage by its events; the invariant holds |
| `RealTime.RtTimetable.CancelRun` | src/rt/rt_timetable.cc:369-380 | flags the copy, makes exactly the scheduled run inactive and grows the coverage by both |
| `RealTime.RtTimetable.ResolvingIsConsistent` | include/nigiri/rt/rt_timetable.h:258-267 | resolving a transport leads to a copy that resolves back to it, and succeeds exactly if there is a copy of it |
| `RealTime.RtTimetable.AffectsIff` | include/nigiri/rt/rt_timetable.h:134-140 | a proper interval is affected if and only if the profile has time-dependent footpaths or the interval shares a minute with the coverage |
| `RealTime.RtTimetable.DroppingIsSoundIff` | src/routing/raptor_search.cc:83-89 | for an interval that affects rejects, the views with and without the overlay have the same events if and only if no event in it still has a time given from outside |
| `RealTime.RtTimetable.DroppingIsSound` | include/nigiri/rt/rt_timetable.h:134-140 | without times from outside every interval that affects rejects may be searched on the static timetable |
| `RealTime.Replay` | src/rt/rt_timetable.cc:31-92 | over any sequence of replacements, delays and cancellations a run is active exactly if it is scheduled and was never removed, and dropping the overlay stays sound |
| `RealTime.Apply` | src/rt/rt_timetable.cc:369-380 | a cancelled run is removed and its copy, if it has one, flagged; a replaced one has a copy that resolves to it; a delay that can be stored is the time of its event and covered |
| `UpdateMatching.FindUpdate` | src/rt/gtfsrt_update.cc:404-447 | the cursor stops at the first entry that is of use at this stop or later and tells whether it is for this stop |
| `UpdateMatching.ConsumedInOrder` | src/rt/gtfsrt_update.cc:404-447 | entries are used in their order, and twice only if the track change was rejected the first time; consumed at most once |
| `UpdateMatching.RejectedEntryReturns` | src/rt/gtfsrt_update.cc:404-447 | an entry with the number of one stop and the id of a later one, rejected at the former, gives the stops in between no entry and is consumed at the latter |
| `UpdateMatching.PassedEntriesAreUseless` | src/rt/gtfsrt_update.cc:404-447 | an entry the cursor passes unconsumed stands for no stop from there on, or is the skipped twin of its successor |
| `DelayPropagation.DelaysPropagate` | src/rt/gtfsrt_update.cc:510-567 | an event without own data gets the later of the preceding event's new time and schedule plus the delay of the last data, marked inconsistent exactly if bounded; it keeps its time only if that cannot be stored |
| `DelayPropagation.OwnDataIsBounded` | src/rt/gtfsrt_update.cc:115-168 | an event with own data gets the later of that and the preceding event's new time |
| `DelayPropagation.NoDataResets` | src/rt/gtfsrt_update.cc:170-182 | from a stop without data on, events fall back to the schedule until one has data |
| `DelayPropagation.SilenceChangesNothing` | src/rt/gtfsrt_update.cc:510-567 | before the first data nothing changes |
| `DelayPropagation.FoldKeeps` | src/rt/gtfsrt_update.cc:404-568 | later stops leave the outcome of earlier events alone |
| `DelayPropagation.LatestIsLeast` | src/rt/gtfsrt_update.cc:570-587 | the prefix maximum is the least non-decreasing sequence above the times |
| `DelayPropagation.SmoothedNeverDecreases` | src/rt/gtfsrt_update.cc:570-587 | after the closing pass times never decrease along the run and no time got smaller |
| `DelayPropagation.SmoothingKeepsIff` | src/rt/gtfsrt_update.cc:570-587 | the closing pass leaves time and state of an event alone if and only if no earlier event is later |
| `DelayPropagation.SteadyTimesNeverDecrease` | src/rt/gtfsrt_update.cc:404-568 | if commands follow each other without a gap, none takes data back, all times can be stored and the times before did not decrease, neither do those after the fold |
| `DelayPropagation.ClosingPassKeepsSteadyEvents` | src/rt/gtfsrt_update.cc:404-587 | then the events handled keep through the closing pass what the laws of the fold say of them |
| `GtfsrtUpdate.UpdateDelay` | src/rt/gtfsrt_update.cc:115-136 | refines the fold's delayed event |
| `GtfsrtUpdate.UpdateEvent` | src/rt/gtfsrt_update.cc:138-168 | refines the fold's own-data event; seconds become minutes truncated towards zero |
| `GtfsrtUpdate.HandleStop` | src/rt/gtfsrt_update.cc:510-568 | arrival and departure of a stop refine two steps of the fold |
| `GtfsrtUpdate.HandleStops` | src/rt/gtfsrt_update.cc:402-568 | the loop refines the fold over all commands, applies exactly the stop changes of the matched entries and touches no other transport |
| `GtfsrtUpdate.CommandsAscend` | src/rt/gtfsrt_update.cc:402-568 | commands come in the order of the events |
| `GtfsrtUpdate.CommandsAreGaplessIff` | src/rt/gtfsrt_update.cc:402-568 | every event of the run gets exactly one command, without a gap, if and only if no track change is rejected |
| `GtfsrtUpdate.Smooth` | src/rt/gtfsrt_update.cc:570-587 | the closing pass leaves the prefix maximum and marks exactly the changed events |
| `GtfsrtUpdate.ApplyUpdate` | src/rt/gtfsrt_update.cc:404-595 | fold, closing pass, cancellation exactly if at most one stop is still served; the coverage grows by exactly the times stored and by a cancelled run |
| `GtfsrtUpdate.UpdateRun` | src/rt/gtfsrt_update.cc:346-596 | a scheduled run is refused exactly if it has no copy and lies outside the interval; else its times are the closing pass over the fold from the copy's or the scheduled times, its coverage is exact and the overlay stays valid |
| `GtfsrtUpdate.ReplacementEscapes` | src/rt/gtfsrt_update.cc:299-301 | a replacement trip after its update: the first event is still at zero time, in an interval that affects rejects |
| `UpdateLaws.DepartureTakesItsData` | src/rt/gtfsrt_update.cc:549-555 | a departure for which the entry that its stop takes has data becomes, after the whole fold, the later of the arrival before it and the time those data name; it keeps what it had exactly if that cannot be stored |
| `UpdateLaws.ArrivalTakesItsData` | src/rt/gtfsrt_update.cc:521-528 | the same for an arrival and the departure before it, or the last event handled if the entry of the stop before was rejected |
| `UpdateLaws.FirstDepartureTakesArrival` | src/rt/gtfsrt_update.cc:539-548 | at the first stop the arrival's data stand in for an absent departure |
| `UpdateLaws.DepartureFollowsArrival` | src/rt/gtfsrt_update.cc:556-559 | a departure without data becomes the later of its arrival and the schedule plus the delay that the arrival's data start |
| `UpdateLaws.DelayTravelsOn` | src/rt/gtfsrt_update.cc:529-559 | the delay of a departure's data reaches both events of every following stop until one has an entry, each bounded by the event before |
| `UpdateLaws.FallsBackThrough` | src/rt/gtfsrt_update.cc:510-562 | at a stop whose entry says NO_DATA, and at the stops after it until one has an entry, both events are back on schedule |
| `UpdateLaws.NothingBeforeFirstEntry` | src/rt/gtfsrt_update.cc:404-568 | up to the first stop with an entry nothing changes |
| `UpdateLaws.RejectedStopKeepsEvents` | src/rt/gtfsrt_update.cc:466-484 | a stop whose track change is rejected keeps its events |
| `UpdateLaws.StopIsAsTold` | src/rt/gtfsrt_update.cc:449-508 | a skipped stop can neither be boarded nor left; without another location it is as scheduled; a known equivalent location is taken and the rest kept; any other leaves stop and events alone |
| `UpdateLaws.ServedCounts` | src/rt/gtfsrt_update.cc:589-594 | what decides on the cancellation is the number of stops that can be boarded or left |
| `UpdateLaws.RefusedUnlessADayFits` | include/nigiri/rt/rt_timetable.h:85-94 | a run gets a copy only if each of its events could be stored a day earlier and a day later |
| `TransportMerging.IsDuplicate` | src/loader/merge_duplicates.cc:29-51 | with its early exit it holds if and only if the summed difference of all events is within the budget |
| `TransportMerging.CountKeepsOrderIff` | include/nigiri/types.h:643 | counting packed times in signed 16 bits keeps their order unless they lie on different sides of 32768 |
| `TransportMerging.Merge` | src/loader/merge_duplicates.cc:68-123 | the transport whose days the other one has loses them all, else the first loses the common ones; tells which one disappears |
| `TransportMerging.MergeRoutePair` | src/loader/merge_duplicates.cc:140-201 | the sliding window has the effect of trying every pair of the two routes in order |
| `TransportMerging.GroupedDeparturesAreSorted` | src/loader/merge_duplicates.cc:148-163 | transports of a grouped and written route have the order of first departures that the window relies on |
| `TransportMerging.TooFarApart` | src/loader/merge_duplicates.cc:155-163 | pairs outside the window are no duplicates |
| `TransportMerging.MergedMovesDays` | src/loader/merge_duplicates.cc:68-92 | a merge takes a day from one of the two only if the other one keeps it |
| `TransportMerging.SecondKeepsSharedDays` | src/loader/merge_duplicates.cc:78-96 | the shared days stay with the second transport, unless its days are some but not all of the first one's; no other day is concerned |
| `TransportMerging.OthersKeepAllDays` | src/loader/merge_duplicates.cc:155-199 | a transport without a duplicate in any visited route pair keeps all its days |
| `TransportMerging.NoServiceDayIsLost` | src/loader/merge_duplicates.cc:68-123 | over a whole run days are only cleared, and every transport is linked on each of its days, by duplicates that all ran that day, to one that still does |
| `TransportMerging.NoTwinsShareADay` | src/loader/merge_duplicates.cc:155-199 | in the end no duplicate pair of a visited route pair runs on a common day |
| `MergeDuplicates.SeqMatches` | src/loader/merge_duplicates.cc:310-331 | stop for stop the same root or a neighbouring one |
| `MergeDuplicates.IsMergeable` | src/loader/merge_duplicates.cc:386-399 | the flags for sources, equal attributes within a source, and matching stops |
| `MergeDuplicates.VisitedOnce` | src/loader/merge_duplicates.cc:412-424 | a pair of routes is mergeable exactly if one of its two orders is visited, and never both |
| `MergeDuplicates.MergeRootPair` | src/loader/merge_duplicates.cc:371-410 | visits exactly the mergeable pairs with the two roots |
| `MergeDuplicates.Run` | src/loader/merge_duplicates.cc:203-424 | the pairs compared are exactly the visited ones, each once, and the days are those after merging them one after the other |
| `MergeDuplicates.MergingIsSound` | src/loader/merge_duplicates.cc:203-424 | after the run no service day is lost and duplicates share no day |
| `MergeDuplicates.ThresholdsOfBothClassesCount` | src/loader/merge_duplicates.cc:140-199 | transports that are compared, ran on a common day and differ by at most 2 (n - 1) times the threshold of each of the two classes share no day in the end; one that exceeds a threshold with all it is compared with keeps all its days |
| `TdFootpath.ForwardDuration` | include/nigiri/td_footpath.h:32-45 | the earliest departure with a usable entry in force, none exactly if there is no such departure within the waiting limit; exact in 16 bits for walks below 25568 minutes |
| `TdFootpath.BackwardDuration` | include/nigiri/td_footpath.h:47-66 | the latest departure that arrives in time, none exactly if there is none or it would arrive more than the limit too early |
| `TdFootpath.LimitHidesIff` | include/nigiri/td_footpath.h:52-65 | at some time the lookup finds nothing although a departure arrives within the limit, if and only if a departure is overtaken by a later one and nobody after that arrives before both, the overtaking one by more than the limit |
| `TdFootpath.HiddenArrival` | include/nigiri/td_footpath.h:52-65 | entries, walks of 300 and 5 minutes, for which the lookup finds nothing although the first walk arrives in time and within the limit |
| `Fares.JoinTransfers` | src/fares.cc:657-729 | the result is a complete chain of windows over the legs: every group is the longest the first matching rule and its count allow |
| `Fares.JoinRange` | src/fares.cc:660-727 | the legs of one source, including the step back to the last matched leg |
| `Fares.CollectMatched` | src/fares.cc:703-714 | at most as many transfers as the 8-bit count allows, counted down with wrap-around; progress exactly if the count is not zero |
| `Fares.OutputKeepsLegs` | src/fares.cc:657-729 | every leg occurs in the output |
| `Fares.EveryLegOccurs` | src/fares.cc:657-729 | every leg lies in some window |
| `Fares.WindowsInOrder` | src/fares.cc:716-721 | groups are in order and overlap in the last leg of the former at most |
| `Fares.WindowsMeet` | src/fares.cc:716-721 | two windows in a row share a leg, the last of the first one, if and only if the first one is a group whose source goes on |
| `Fares.OutputIsDetermined` | src/fares.cc:684-726 | legs, rules and matches leave exactly one output open |
| `SparseVecvec.SparseIndex.AddKey` | include/nigiri/common/sparse_vecvec.h:75-82 | appends one bit and a frame at every block start, keeping all frames exact |
| `SparseVecvec.SparseIndex.DataIdx` | include/nigiri/common/sparse_vecvec.h:84-99 | the default row for keys without a bucket, else the rank of the key, from frame, full words and masked word |
| `SparseVecvec.SparseVecvec.EmplaceBack` | include/nigiri/common/sparse_vecvec.h:63-69 | appends the row to the contents; default rows are not stored |
| `SparseVecvec.SparseVecvec.Get` | include/nigiri/common/sparse_vecvec.h:101 | the k-th appended row |
| `SparseVecvec.SparseVecvec.At` | include/nigiri/common/sparse_vecvec.h:103-108 | the k-th appended row, nothing if there is none |
| `SparseVecvec.SparseVecvec.ToSeq` | include/nigiri/common/sparse_vecvec.h:110-113 | iteration yields all rows in order |
| `SparseVecvec.Iterator.Advance` | include/nigiri/common/sparse_vecvec.h:33-39 | the iterator's counter stays the rank of its key |
| `SparseVecvec.MakeSparse` | include/nigiri/common/sparse_vecvec.h:126-134 | converting plain rows keeps all of them |
| `SparseVecvec.DedupVecvec.EmplaceBack` | include/nigiri/common/dedup_vecvec.h:44-55 | appends the row; with a complete cache no row is ever stored twice |
| `SparseVecvec.DedupVecvec.EqualRowsShareIndex` | include/nigiri/common/dedup_vecvec.h:44-55 | interned rows are equal if and only if they share their index |
| `SparseVecvec.MostFrequent` | include/nigiri/common/sparse_vecvec.h:143-148 | the first of the sequences used most often |
| `SparseVecvec.MakeSparseDedup` | include/nigiri/common/sparse_vecvec.h:136-159 | converting interned rows preserves every lookup and leaves out the most frequent row |
| `ParetoSet.DominanceKeepsDirection` | include/nigiri/routing/journey.h:80-88 | a journey only dominates journeys of its own direction |
| `ParetoSet.ForwardDominanceIff` | include/nigiri/routing/journey.h:80-84 | among forward journeys one is dominated exactly unless it is better in transfers, departure or arrival |
| `ParetoSet.DominanceIsTransitive` | include/nigiri/routing/journey.h:80-88 | dominance is transitive on any mixture of journeys |
| `ParetoSet.BackwardDominanceIff` | include/nigiri/routing/journey.h:80-88 | for backward journeys dominance is the intended order except that a journey without duration never dominates one with some |
| `ParetoSet.ParetoSet.Add` | include/nigiri/routing/pareto_set.h:21-37 | on any contents: first dominating element, compacted prefix, or the kept elements plus the new one |
| `ParetoSet.RejectedChangesNothing` | include/nigiri/routing/pareto_set.h:23-26 | on an antichain the early return comes before anything was dropped |
| `ParetoSet.AddKeeps` | include/nigiri/routing/pareto_set.h:21-37 | one add keeps the antichain and everything covered, and covers the new journey |
| `ParetoSet.AddAll` | include/nigiri/routing/pareto_set.h:21-37 | after any sequence of adds the set is an antichain of added journeys and every journey ever added is dominated by a kept one |
| `IntervalEstimate.ClampsAreOneClamp` | include/nigiri/routing/interval_estimate.h:137-146 | the three clamps, to any non-empty intervals, are one clamp to a fixed interval |
| `IntervalEstimate.ClampsAreMonotoneAndIdempotent` | include/nigiri/routing/interval_estimate.h:137-146 | hence they are monotone and idempotent |
| `IntervalEstimate.DataTypeMaxIsOrdered` | include/nigiri/routing/interval_estimate.h:24-40 | the largest interval is never inverted and at most one day larger than the maximum search interval |
| `IntervalEstimate.RoundingExceedsTheMaximumIff` | include/nigiri/routing/interval_estimate.h:24-40 | the largest interval exceeds the maximum size if and only if the maximum is the bound at both ends, halving loses no minute and the lower end lies at noon of an even day; then by one day |
| `IntervalEstimate.EstimatorFor` | include/nigiri/routing/interval_estimate.h:16-40 | the bound of every query has at most the maximum size and one day |
| `IntervalEstimate.Initial` | include/nigiri/routing/interval_estimate.h:43-80 | the first interval lies within the bound, contains all of the query's interval that the bound allows, and is clamped from an hour for each connection wanted and one more, ahead of the search as far as that end can be extended |
| `IntervalEstimate.Extension` | include/nigiri/routing/interval_estimate.h:88-114 | the extension contains the interval, stays within the bound, moves open ends only, each by the size times the connections missing, or half of it, and is the same exactly if nothing is left to extend |
| `IntervalEstimate.MaxInterval` | include/nigiri/routing/interval_estimate.h:82-86 | max_interval is that bound |
| `SearchLoop.Search.SearchInterval` | include/nigiri/routing/search.h:419-494 | a round leaves the results of all start times in turn, or, if the search may stop early, of those up to the first after which enough results count; then the interval ends there and enough results still count in it |
| `SearchLoop.Search.NextStarts` | include/nigiri/routing/search.h:286-306 | exactly the start times of the two added parts, in search order; results outside the old interval are dropped exactly if the search begins anew |
| `SearchLoop.Execute` | include/nigiri/routing/search.h:237-317 | the extension loop terminates, each interval of its history properly contains the one before within the bound of the query, an early stop is followed by the exit, and without enough results or timeout the interval is exhausted; however it ends, with an algorithm that drops nothing the results hold every journey that a start time of the final interval yields, and never anything else than what runs found |

## Left out

- LowerBounds.LowerBoundTheorem: with real-time data it requires walks nowhere slower than the default profile's edges, because the source computes the overlay for the default profile only; `ProfileBounds.ServedIff` shows the condition to be exact. Stations nested at most 21 levels deep are required, beyond which the source does not find the root; real-time rides count for every profile, up to the longest 16-bit duration.
- ProfileBounds.ServedIff: real-time data are any transports that `update_lbs` accepts, added trips included.
- Footpaths.BuildFootpaths: durations are unbounded numbers, as in the source up to 255 minutes; that longer ones lose their upper bits is not modelled.
- Footpaths.ConnectComponents: one component after the other instead of parallel tasks after all pairs; sorting the assignments and taking equal ranges is a scan for each label, which yields the same ascending lists.
- RealTime.RtTimetable.AddRtTransport: the time offset and stops without times are no parameters, because no caller passes them; names, routes, directions, flags, classes and the list of transports per stop are not kept.
- GtfsrtUpdate.UpdateRun: trips of the schedule only; ADDED, NEW, REPLACEMENT and DUPLICATED trips come in through `AddRtTransport` and `ApplyUpdate`, without the check of speed and distance.
- GtfsrtUpdate.HandleStops: requires a run of at least two stops, and an unscheduled run to start at the first stop of its copy.
- TransportMerging.Merge: trip ranges are not repointed; day coverage is claimed, not the lookup of trips after chains of merges. Bitfields are values, so their registration is not modelled.
- MergeDuplicates.Run: routes at dummy stations and at null island are taken to be filtered out, neighbour lists are given, and the compared attributes of a route are one list of flags; statistics are not kept.
- Fares.JoinTransfers: the match of a rule is a given predicate; `join_legs` and the match of leg rules are not part of this model.
- SparseVecvec.SparseIndex.DataIdx: words are lists of 64 bits, so the masks are slices; hashing in the interning cache is a search over the cached rows.
- SearchLoop.Execute: queries with a start interval; what a minute yields may depend on the interval asked for or an algorithm may drop results, and then no journey is promised; reconstruction, the fastest direct connection and the final filtering of the results are not part of this model, the routing algorithm is a callback whose new journeys start at the time searched for.
- IntervalEstimate.Extension: minutes are unbounded, so an overflow of 32-bit minutes by very large connection counts is not modelled.
- EarliestTransport.GetEarliestTransport: the day index is a plain number, so its wrap-around on days before the timetable is not modelled.
- RAPTOR itself, journey reconstruction, the other search engines and the GPU code.
- Choosing one of several parallel raw footpaths (`get_footpath_graph`), links to generated tracks and nearby stations, walking speed adjustment, coordinates and spatial indices.
- Time zones and noon offsets of trips: times are given in UTC.
- VDV and SIRI updates, vehicle positions, alerts, names, translations, shapes.
- Parsing, serialization, user scripts, logging, tracing and command line programs.
- Callbacks about changed delays and stops (`dispatch_delay`, `dispatch_stop_change`).
