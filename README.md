# OpenTripPlanner flex routing, Raptor and GTFS mapping core, in Dafny

This project models a handful of OpenTripPlanner components in Dafny and proves properties of the models:

- **Flex access template** (`FlexAccessTemplate`). It builds the itinerary of a flex (demand-responsive) ride that starts where an access walk ends. The ride either goes straight to an egress walk (`createDirectItinerary`, with its arrive-by / depart-at time-shift) or continues through a same-stop transfer to a second flex ride (`getTransferItinerary`). The module also covers `isRouteable`, `getFlexEdge` and `getFlexTimes`.
- **Continuous-stops flex path calculator** (`ContinuousStopsFlexPathCalculator`). It gives the ride duration of a continuous pickup/drop-off trip, in Java `int` arithmetic.
- **Flex trip classification** (`FlexTripsMapper.createFlexTrips`). Every trip's stop times are classified as unscheduled, scheduled-deviated or continuous. The first match wins, and the result goes into the builder's flex-trip index.
- **Raptor trip schedule with offset** (`TripScheduleWithOffset`). A trip's times are shifted by a fixed offset, and `findStopPosInPattern` searches them.
- **Itinerary max-limit filter** (`MaxLimitFilter`). It keeps the head of a sorted itinerary list, bounded by a count and (after the first itinerary) by a latest departure time. The first itinerary it drops goes to a subscriber.
- **Transit routing configuration** (`TransitRoutingConfig`). The tuning parameters get their defaults here, together with the stop-transfer and feed-priority cost rules.
- **GTFS stop-time mapping** (`StopTimeMapper`). The null-safe, memoised `map`, and `doMap` with its stop dispatch, its flex-window fallback from the new GTFS fields to the legacy ones, and its proxy check.
- **Hierarchical map** (`HierarchicalMap`). Its behaviour is modelled as its unit test pins it down: lookup falls back to ancestor levels, local queries see one level only, and `localValues` counts values with multiplicity.

Layout: one Dafny module per source file, plus these shared modules:

| module | file | contents |
|---|---|---|
| `Common` | `common.dfy` | Java null (`Option`), exceptions (`Outcome`), `int`/`long` bounds and 32-bit wrap-around |
| `FlexTrips` | `flex_trip.dfy` | the feasibility queries of a flex trip |
| `StreetGraph` | `street_graph.dfy` | vertices, states, edges and traversal |
| `TransitModel` | `transit_model.dfy` | the transit model's `StopTime` record |

How the models are built:

- **Pure logic** becomes Dafny functions with named results.
- **State that the Java code changes in place** becomes a class:
  - the builder's flex-trip index
  - the mapper's cache
  - a hierarchical map level
  - an itinerary's start time
- **Loops** become methods with loop invariants. Each method is proved against a specification function:
  - `DirectPlanOf`
  - `TransferPlanOf`
  - `ClassifiedIndex`
  - `FirstDropped`
  - `MapOne`
- **Java exceptions** are values of `Outcome`. A Java `null` result is `None` or a `null` object reference.

Collaborators whose code is not part of this model are parameters of the operations, as uninterpreted functions:

- a trip's `earliestDepartureTime`/`latestArrivalTime`
- `Edge.traverse` and `FlexTripEdge.getTimeInSeconds`
- the flex path calculator of a template
- the three trip classifiers
- the egress template's `isRouteable`/`getFlexEdge`
- the GTFS trip, stop, location and location-group mappers

Some properties need a promise that the trip classes are meant to keep: a feasible earliest departure is never before its bound, and a feasible latest arrival is never after its bound. The predicate `FlexTrips.HonoursBounds` states that promise, and it appears only as a lemma hypothesis.

## Model

| member | source | states |
|---|---|---|
| FlexAccessTemplate.Itinerary.Generate | src/ext/java/org/opentripplanner/ext/flex/template/FlexAccessTemplate.java:113-116 | The itinerary of a path starts at the final state's time minus its elapsed time and lasts the elapsed time. |
| FlexAccessTemplate.Itinerary.TimeShiftToStartAt | src/ext/java/org/opentripplanner/ext/flex/template/FlexAccessTemplate.java:118-121 | The itinerary starts at the given time and keeps its duration. |
| FlexAccessTemplate.IsRouteable | src/ext/java/org/opentripplanner/ext/flex/template/FlexAccessTemplate.java:198-207 | A routeable vertex is never where the access walk ends. The null vertex is routeable exactly when the calculator finds a path to it. |
| FlexAccessTemplate.GetFlexEdge | src/ext/java/org/opentripplanner/ext/flex/template/FlexAccessTemplate.java:216-226 | The flex edge is a trip edge from the access walk's final vertex to the requested vertex, boarding at the access stop and alighting at the given transfer stop. |
| FlexAccessTemplate.GetFlexTimes | src/ext/java/org/opentripplanner/ext/flex/template/FlexAccessTemplate.java:209-214 | The pre-flex time is the access walk's elapsed time and the flex time is the edge's time. The three parts add up to the final state's elapsed time. |
| FlexAccessTemplate.DirectTimeShift | src/ext/java/org/opentripplanner/ext/flex/template/FlexAccessTemplate.java:74-111 | A kept arrive-by shift alights exactly at the trip's latest arrival and starts no later than the requested time. A kept depart-at shift boards exactly at the trip's earliest departure and starts no earlier. No shift means the trip answered -1 or the start-time check failed, in both directions. |
| FlexAccessTemplate.ArriveByNeverArrivesLate | src/ext/java/org/opentripplanner/ext/flex/template/FlexAccessTemplate.java:74-92 | When the trip honours its bounds, an arrive-by itinerary ends no later than the requested arrival time. |
| FlexAccessTemplate.ArriveByRejectsOnlyInfeasible | src/ext/java/org/opentripplanner/ext/flex/template/FlexAccessTemplate.java:82-92 | When the trip honours its bounds and the journey's parts sum to a non-negative time, an arrive-by shift is rejected exactly when the trip answers -1. |
| FlexAccessTemplate.DepartAtRejectsOnlyInfeasible | src/ext/java/org/opentripplanner/ext/flex/template/FlexAccessTemplate.java:94-110 | When the trip honours its bounds, a depart-at shift is rejected exactly when the trip answers -1. |
| FlexAccessTemplate.ContinuousRouteability | src/ext/java/org/opentripplanner/ext/flex/template/FlexAccessTemplate.java:198-207 | With the continuous calculator, a vertex is routeable exactly when it is not the access walk's own vertex and the trip's departure is before its arrival. |
| FlexAccessTemplate.DirectDepartAtNeverEarly | src/ext/java/org/opentripplanner/ext/flex/template/FlexAccessTemplate.java:105-110 | A depart-at direct itinerary never starts before the requested time. |
| FlexAccessTemplate.DirectArriveByNeverLate | src/ext/java/org/opentripplanner/ext/flex/template/FlexAccessTemplate.java:56-92 | When the trip honours its bounds, an arrive-by direct itinerary's shift plus its elapsed time is at most the requested time. |
| FlexAccessTemplate.DirectRejectsUnrouteable | src/ext/java/org/opentripplanner/ext/flex/template/FlexAccessTemplate.java:48-52 | An unrouteable first egress vertex gives no itinerary. |
| FlexAccessTemplate.DirectRejectsBrokenWalk | src/ext/java/org/opentripplanner/ext/flex/template/FlexAccessTemplate.java:58-64 | If the egress walk fails on any prefix, there is no itinerary. |
| FlexAccessTemplate.CreateDirectItinerary | src/ext/java/org/opentripplanner/ext/flex/template/FlexAccessTemplate.java:43-123 | The method throws, returns null or returns an itinerary exactly as the specification `DirectPlanOf` decides. An itinerary starts at start-of-time plus the shift and lasts the walk-ride-walk elapsed time. A depart-at itinerary starts no earlier than the requested time. |
| FlexAccessTemplate.VertexOf | src/ext/java/org/opentripplanner/ext/flex/template/FlexAccessTemplate.java:142-143 | A stop's vertex is its entry in the index, or null when it has none. |
| FlexAccessTemplate.NullVertexLeftToCalculator | src/ext/java/org/opentripplanner/ext/flex/template/FlexAccessTemplate.java:142-143 | A stop without a vertex gives the null vertex, which is routeable exactly when the calculator finds a path to it. |
| FlexAccessTemplate.TransferEdges | src/ext/java/org/opentripplanner/ext/flex/template/FlexAccessTemplate.java:149-168 | The transfer route starts with the first flex ride. For minimum-time transfers only, the wait edge with the minimum transfer time comes second. The egress template's flex ride to the transfer stop comes right before the egress walk, which is unchanged. |
| FlexAccessTemplate.WaitEdgeOnlyForMinTime | src/ext/java/org/opentripplanner/ext/flex/template/FlexAccessTemplate.java:134-162 | A wait edge appears on the route exactly for a minimum-time transfer. It comes second and carries the minimum transfer time. |
| FlexAccessTemplate.TransferRejections | src/ext/java/org/opentripplanner/ext/flex/template/FlexAccessTemplate.java:129-147 | A transfer gives no itinerary exactly when its two stops differ, its type is neither minimum-time nor guaranteed, or either side is not routeable. |
| FlexAccessTemplate.GetTransferItinerary | src/ext/java/org/opentripplanner/ext/flex/template/FlexAccessTemplate.java:125-180 | The method throws, returns null or returns an itinerary exactly as `TransferPlanOf` decides. An unchecked null state throws a NullPointerException. The itinerary is left in the path's own time frame, with no time-shift. |
| StreetGraph.TraverseAllAppend | src/ext/java/org/opentripplanner/ext/flex/template/FlexAccessTemplate.java:58-64 | Traversing a concatenation of edges is traversing the first part, then the second from where it ended. |
| StreetGraph.TraverseAllFailsOnPrefix | src/ext/java/org/opentripplanner/ext/flex/template/FlexAccessTemplate.java:58-64 | A walk that fails on a prefix fails as a whole. |
| ContinuousStopsFlexPathCalculator.CalculateFlexPath | src/ext/java/org/opentripplanner/ext/flex/flexpathcalculator/ContinuousStopsFlexPathCalculator.java:15-24 | There is no path exactly when the unbounded earliest departure is not before the unbounded latest arrival. A path has distance 0 and a duration that fits in a Java int. |
| ContinuousStopsFlexPathCalculator.DurationIsRideTime | src/ext/java/org/opentripplanner/ext/flex/flexpathcalculator/ContinuousStopsFlexPathCalculator.java:19-23 | For a feasible departure, the duration is exactly arrival minus departure, and it is positive. |
| ContinuousStopsFlexPathCalculator.IndependentOfVertices | src/ext/java/org/opentripplanner/ext/flex/flexpathcalculator/ContinuousStopsFlexPathCalculator.java:15-24 | The result does not depend on the two vertices. |
| ContinuousStopsFlexPathCalculator.InfeasibleDepartureStillYieldsPath | src/ext/java/org/opentripplanner/ext/flex/flexpathcalculator/ContinuousStopsFlexPathCalculator.java:19-23 | A departure answer of -1 is not filtered out: the path then lasts the arrival plus one second. |
| ContinuousStopsFlexPathCalculator.DurationCanWrap | src/ext/java/org/opentripplanner/ext/flex/flexpathcalculator/ContinuousStopsFlexPathCalculator.java:23 | The int subtraction can wrap: a departure of -1 with an arrival of Integer.MAX_VALUE gives Integer.MIN_VALUE. |
| FlexTripsMapper.Classify | src/ext/java/org/opentripplanner/ext/flex/FlexTripsMapper.java:36-42 | Each variant is chosen exactly when its own test holds and every earlier test fails. No test holding means no flex trip. The flex trip keeps the trip and its stop times. |
| FlexTripsMapper.ClassifiedIndexKeys | src/ext/java/org/opentripplanner/ext/flex/FlexTripsMapper.java:31-42 | A trip is indexed exactly when some entry for it is classified. |
| FlexTripsMapper.ClassifiedIndexValues | src/ext/java/org/opentripplanner/ext/flex/FlexTripsMapper.java:31-42 | Every indexed flex trip is the classification of an entry for its own trip. |
| FlexTripsMapper.ClassifiedIndexSize | src/ext/java/org/opentripplanner/ext/flex/FlexTripsMapper.java:31-42 | There is at most one flex trip per input entry. |
| FlexTripsMapper.UnclassifiedTripAbsent | src/ext/java/org/opentripplanner/ext/flex/FlexTripsMapper.java:36-42 | A trip none of whose entries classifies is not indexed. |
| FlexTripsMapper.TransitServiceBuilder.CreateFlexTrips | src/ext/java/org/opentripplanner/ext/flex/FlexTripsMapper.java:22-49 | The index becomes its old content updated with the classification of every trip, in order. |
| TripScheduleWithOffset.TripScheduleWithOffset.constructor | src/main/java/org/opentripplanner/routing/algorithm/raptor/transit/request/TripScheduleWithOffset.java:22-27 | The pattern, service date, trip times and offset are kept as given. |
| TripScheduleWithOffset.TripScheduleWithOffset.Arrival | src/main/java/org/opentripplanner/routing/algorithm/raptor/transit/request/TripScheduleWithOffset.java:29-32 | An arrival is the canonical arrival plus the offset. |
| TripScheduleWithOffset.TripScheduleWithOffset.Departure | src/main/java/org/opentripplanner/routing/algorithm/raptor/transit/request/TripScheduleWithOffset.java:34-37 | A departure is the canonical departure plus the offset. |
| TripScheduleWithOffset.TripScheduleWithOffset.GetSecondsOffset | src/main/java/org/opentripplanner/routing/algorithm/raptor/transit/request/TripScheduleWithOffset.java:71-73 | The getter returns the offset. |
| TripScheduleWithOffset.TripScheduleWithOffset.GetServiceDate | src/main/java/org/opentripplanner/routing/algorithm/raptor/transit/request/TripScheduleWithOffset.java:54-56 | The getter returns the service date. |
| TripScheduleWithOffset.TripScheduleWithOffset.FindStopPosInPattern | src/main/java/org/opentripplanner/routing/algorithm/raptor/transit/request/TripScheduleWithOffset.java:58-69 | The method returns the first position that serves the stop at exactly the time in the asked direction. It throws IllegalStateException exactly when no position does. |
| TripScheduleWithOffset.ProjectionsDifferByOffset | src/main/java/org/opentripplanner/routing/algorithm/raptor/transit/request/TripScheduleWithOffset.java:29-37 | Two projections of one trip differ at every position by the difference of their offsets. |
| TripScheduleWithOffset.MatchIsCanonicalMatch | src/main/java/org/opentripplanner/routing/algorithm/raptor/transit/request/TripScheduleWithOffset.java:58-64 | A position matches a time exactly when the canonical trip matches that time minus the offset. |
| MaxLimitFilter.FirstDropped | src/main/java/org/opentripplanner/routing/algorithm/filterchain/filters/MaxLimitFilter.java:46-53 | The result is the first index where the count is reached, or where an itinerary after the first starts past the limit. It is the list's length when no such index exists. |
| MaxLimitFilter.MaxLimitFilter.constructor | src/main/java/org/opentripplanner/routing/algorithm/filterchain/filters/MaxLimitFilter.java:27-29 | The filter has no subscriber. A missing time limit means Long.MAX_VALUE. |
| MaxLimitFilter.MaxLimitFilter.WithSubscriber | src/main/java/org/opentripplanner/routing/algorithm/filterchain/filters/MaxLimitFilter.java:31-36 | A missing limit means Long.MAX_VALUE and a missing subscriber means the no-op one. |
| MaxLimitFilter.MaxLimitFilter.Name | src/main/java/org/opentripplanner/routing/algorithm/filterchain/filters/MaxLimitFilter.java:39-41 | The method returns the name given at construction. |
| MaxLimitFilter.MaxLimitFilter.RemoveItineraries | src/main/java/org/opentripplanner/routing/algorithm/filterchain/filters/MaxLimitFilter.java:59-62 | The filter always removes itineraries. |
| MaxLimitFilter.MaxLimitFilter.Filter | src/main/java/org/opentripplanner/routing/algorithm/filterchain/filters/MaxLimitFilter.java:44-57 | The result is the input's prefix up to the first dropped itinerary. The subscriber receives exactly that itinerary, or nothing when the whole list is kept. |
| MaxLimitFilter.FirstDroppedIs | src/main/java/org/opentripplanner/routing/algorithm/filterchain/filters/MaxLimitFilter.java:46-53 | The cut is the only index with no stop before it and a stop at it. |
| MaxLimitFilter.KeptWithinCount | src/main/java/org/opentripplanner/routing/algorithm/filterchain/filters/MaxLimitFilter.java:48 | At most maxLimit itineraries are kept, and none when maxLimit is below one. |
| MaxLimitFilter.FirstAlwaysKept | src/main/java/org/opentripplanner/routing/algorithm/filterchain/filters/MaxLimitFilter.java:48-50 | With a count of at least one, the first itinerary is kept whatever its start time. |
| MaxLimitFilter.KeptTailWithinLimit | src/main/java/org/opentripplanner/routing/algorithm/filterchain/filters/MaxLimitFilter.java:48-50 | Every kept itinerary after the first starts no later than the limit. |
| MaxLimitFilter.ShortListKeptWhole | src/main/java/org/opentripplanner/routing/algorithm/filterchain/filters/MaxLimitFilter.java:46-56 | A list within the count whose start times are all within the limit is kept whole. |
| MaxLimitFilter.NoLimitTruncatesOnlyByCount | src/main/java/org/opentripplanner/routing/algorithm/filterchain/filters/MaxLimitFilter.java:34 | Without a time limit, only the count truncates the list. |
| MaxLimitFilter.CutoffExample | src/main/java/org/opentripplanner/routing/algorithm/filterchain/filters/MaxLimitFilter.java:46-53 | With a count of two and start times before, after and after the limit, only the first itinerary is kept. |
| MaxLimitFilter.SingleLateItineraryKept | src/main/java/org/opentripplanner/routing/algorithm/filterchain/filters/MaxLimitFilter.java:48-50 | A single itinerary past the limit is still kept. |
| TransitRoutingConfig.FromConfig | src/main/java/org/opentripplanner/standalone/config/TransitRoutingConfig.java:31-63 | Each tuning parameter is the configured value or the Raptor default. The feed lists default to empty and the feed costs to zero. The transfer-cost map is present only when configured. |
| TransitRoutingConfig.StopTransferCost | src/main/java/org/opentripplanner/standalone/config/TransitRoutingConfig.java:95-98 | The method returns the configured cost of the priority, or null when the map has no entry. It throws NullPointerException exactly when no map is configured. |
| TransitRoutingConfig.EnableStopTransferPriority | src/main/java/org/opentripplanner/standalone/config/TransitRoutingConfig.java:91-93 | Transfer priority is on exactly when no stopTransferCost lookup throws. |
| TransitRoutingConfig.StopTransferCostByFeed | src/main/java/org/opentripplanner/standalone/config/TransitRoutingConfig.java:106-109 | A preferred feed costs 0. An unpreferred feed that is not also preferred costs the unpreferred cost. Any other feed costs the non-preferred cost. |
| TransitRoutingConfig.EnableStopFeedPriority | src/main/java/org/opentripplanner/standalone/config/TransitRoutingConfig.java:100-104 | Feed priority is on only when some feed is listed and some feed cost is non-zero. |
| TransitRoutingConfig.DefaultsDisableFeedPriority | src/main/java/org/opentripplanner/standalone/config/TransitRoutingConfig.java:59-62 | Without feed settings, feed priority is off and every feed costs 0. |
| TransitRoutingConfig.DisabledFeedPriorityCostsNothingListed | src/main/java/org/opentripplanner/standalone/config/TransitRoutingConfig.java:100-109 | With feed priority off, every listed feed costs 0, and when some feed is preferred every feed does. |
| TransitRoutingConfig.PreferredFeedsMakeOthersCost | src/main/java/org/opentripplanner/standalone/config/TransitRoutingConfig.java:100-109 | Preferred feeds with a non-zero non-preferred cost turn priority on, and make unlisted feeds cost something. |
| TransitRoutingConfig.EnabledYetInert | src/main/java/org/opentripplanner/standalone/config/TransitRoutingConfig.java:100-109 | A feed listed as both preferred and unpreferred turns priority on while every feed costs 0. |
| TransitRoutingConfig.ConfiguredTransferCosts | src/main/java/org/opentripplanner/standalone/config/TransitRoutingConfig.java:54-58 | Transfer priority is on exactly when the node configures a cost map, and then the configured costs are reported. |
| StopTimeMapper.MapStop | src/main/java/org/opentripplanner/gtfs/mapping/StopTimeMapper.java:52-58 | A stop, a location or a location group goes through its own mapper. A null stop or any other kind leaves the stop unset. |
| StopTimeMapper.DoMap | src/main/java/org/opentripplanner/gtfs/mapping/StopTimeMapper.java:48-89 | A proxy raises IllegalStateException, and only a proxy does. Times, types, texts and distance are copied. Each flex window bound is the new field unless it is MISSING_VALUE, and the legacy field otherwise. |
| StopTimeMapper.MapOne | src/main/java/org/opentripplanner/gtfs/mapping/StopTimeMapper.java:43-46 | Mapping null gives null. Otherwise the outcome is doMap's. |
| StopTimeMapper.StopTimeMapper.constructor | src/main/java/org/opentripplanner/gtfs/mapping/StopTimeMapper.java:25-37 | A new mapper has an empty cache. |
| StopTimeMapper.StopTimeMapper.Map | src/main/java/org/opentripplanner/gtfs/mapping/StopTimeMapper.java:44-46 | The result is always what uncached mapping gives. A cached original leaves the cache and the doMap count alone. A new original runs doMap once and is cached only if doMap returned. |
| StopTimeMapper.StopTimeMapper.MapAll | src/main/java/org/opentripplanner/gtfs/mapping/StopTimeMapper.java:39-41 | Each element is mapped in order, as an uncached mapping would map it. The mapping throws exactly when some element's mapping does. Cached entries are kept with their values. The non-null originals before the first failure are added to the cache. doMap runs once for each of them that was not cached before, and once for the failing original. |
| StopTimeMapper.FirstThrown | src/main/java/org/opentripplanner/gtfs/mapping/StopTimeMapper.java:39-41 | The position where mapping a collection stops: every earlier element maps without an exception, and the element there throws. When none throws, it is the length. |
| StopTimeMapper.OriginalsAreNonNull | src/main/java/org/opentripplanner/gtfs/mapping/StopTimeMapper.java:39-46 | The originals that reach doMap are exactly the non-null elements of the collection. |
| StopTimeMapper.MapTwice | src/main/java/org/opentripplanner/gtfs/mapping/StopTimeMapper.java:25-46 | Mapping the same original twice gives the same result, and doMap ran once for it. |
| StopTimeMapper.WindowMissingOnlyWhenBothMissing | src/main/java/org/opentripplanner/gtfs/mapping/StopTimeMapper.java:69-78 | A window bound is MISSING_VALUE only when both the new and the legacy fields are. |
| StopTimeMapper.LegacyFieldsIgnoredWhenNewSet | src/main/java/org/opentripplanner/gtfs/mapping/StopTimeMapper.java:69-78 | With both new window fields set, the legacy fields do not affect the result. |
| StopTimeMapper.FailsExactlyOnProxy | src/main/java/org/opentripplanner/gtfs/mapping/StopTimeMapper.java:84-86 | Mapping a non-null original fails exactly when it has a proxy. |
| HierarchicalMap.HierarchicalMap.Root | src/test/java/org/opentripplanner/netex/loader/util/HierarchicalMapTest.java:49 | A root level has no parent and no entries. |
| HierarchicalMap.HierarchicalMap.Child | src/test/java/org/opentripplanner/netex/loader/util/HierarchicalMapTest.java:50-51 | A child level has the given parent, that parent's chain above it, and no entries. |
| HierarchicalMap.HierarchicalMap.Add | src/test/java/org/opentripplanner/netex/loader/util/HierarchicalMapTest.java:56-62 | The level maps the key to the value. Its other entries stay. |
| HierarchicalMap.HierarchicalMap.AddAll | src/test/java/org/opentripplanner/netex/loader/util/HierarchicalMapTest.java:91-92 | The level gains every entry of the map, and the map's entries win. |
| HierarchicalMap.HierarchicalMap.LocalGet | src/test/java/org/opentripplanner/netex/loader/util/HierarchicalMapTest.java:108-121 | The method returns the level's own entry, or null. |
| HierarchicalMap.HierarchicalMap.LocalContainsKey | src/test/java/org/opentripplanner/netex/loader/util/HierarchicalMapTest.java:142-159 | The level has an entry of its own for the key exactly when localGet finds one. |
| HierarchicalMap.HierarchicalMap.LocalValues | src/test/java/org/opentripplanner/netex/loader/util/HierarchicalMapTest.java:101-106 | The level has as many values as keys of its own. |
| HierarchicalMap.HierarchicalMap.LocalKeys | src/test/java/org/opentripplanner/netex/loader/util/HierarchicalMapTest.java:95 | The result is exactly the keys the level itself contains. |
| HierarchicalMap.HierarchicalMap.Lookup | src/test/java/org/opentripplanner/netex/loader/util/HierarchicalMapTest.java:74-77 | The level's own entry wins over any ancestor's. |
| HierarchicalMap.HierarchicalMap.ContainsKey | src/test/java/org/opentripplanner/netex/loader/util/HierarchicalMapTest.java:123-140 | containsKey holds exactly when the level or one of its ancestors has an entry for the key of its own. |
| HierarchicalMap.LookupNoneIff | src/test/java/org/opentripplanner/netex/loader/util/HierarchicalMapTest.java:79-81 | Lookup finds nothing exactly when neither the level nor any ancestor has the key, so keys held only by descendants are never seen. |
| HierarchicalMap.LookupNearestAncestor | src/test/java/org/opentripplanner/netex/loader/util/HierarchicalMapTest.java:69-72 | A key the level lacks is looked up in the nearest ancestor holding it. |
| HierarchicalMap.ContainsKeyIffLookup | src/test/java/org/opentripplanner/netex/loader/util/HierarchicalMapTest.java:123-140 | containsKey holds exactly when lookup finds something, that is, for keys of the level or of an ancestor. |
| HierarchicalMap.LocalValuesMultiplicity | src/test/java/org/opentripplanner/netex/loader/util/HierarchicalMapTest.java:101-106 | localValues counts each value once per own key holding it, and has as many elements as the level has keys. |
| HierarchicalMap.MapValuesCount | src/test/java/org/opentripplanner/netex/loader/util/HierarchicalMapTest.java:101-106 | A map's values hold each value once per key it is stored under. |
| HierarchicalMap.MapValuesInsert | src/test/java/org/opentripplanner/netex/loader/util/HierarchicalMapTest.java:56-62 | Adding an entry under a new key adds its value to the values once. |
| HierarchicalMap.Setup | src/test/java/org/opentripplanner/netex/loader/util/HierarchicalMapTest.java:49-63 | The test's three-level hierarchy gets its six entries. |
| HierarchicalMap.AddAndLookup | src/test/java/org/opentripplanner/netex/loader/util/HierarchicalMapTest.java:66-82 | The president is found at every level and each level finds its own actor. No mayor is found above the city. |
| HierarchicalMap.LocalValuesOfTest | src/test/java/org/opentripplanner/netex/loader/util/HierarchicalMapTest.java:101-106 | Each level's values are its own, and the state's actor and governor count twice. |
| HierarchicalMap.LocalGetOfTest | src/test/java/org/opentripplanner/netex/loader/util/HierarchicalMapTest.java:108-121 | localGet sees neither ancestors' nor descendants' entries. |
| HierarchicalMap.ContainsKeyOfTest | src/test/java/org/opentripplanner/netex/loader/util/HierarchicalMapTest.java:123-140 | containsKey sees the level's and its ancestors' keys, never a descendant's. |
| HierarchicalMap.LocalContainsKeyOfTest | src/test/java/org/opentripplanner/netex/loader/util/HierarchicalMapTest.java:142-159 | localContainsKey sees only the level's own keys. |
| HierarchicalMap.AddAllScenario | src/test/java/org/opentripplanner/netex/loader/util/HierarchicalMapTest.java:84-99 | After addAll on a new map, its keys, entries and values are the added map's. |

## Left out

- FlexAccessTemplate: the `Calendar`/`ZonedDateTime` conversion of the shift (lines 118-120) is an epoch-second addition here. Time zones and daylight-saving changes are not modelled.
- FlexAccessTemplate: `GraphPathToItineraryMapper` and `GraphPath` are reduced to an itinerary holding a start time and a duration. Legs, geometry and fares are not modelled.
- FlexAccessTemplate: the arithmetic on seconds is unbounded. Java `int` overflow is not modelled, since these values are seconds within a few days.
- FlexAccessTemplate: `Edge.traverse` receiving a null state is modelled as a thrown NullPointerException. The edge classes are not part of this model.
- FlexAccessTemplate: the transfer's stop comparison (`!=` on two references) is modelled as inequality of stop ids.
- FlexAccessTemplate: a missing stop-to-vertex entry is the null vertex (`NullVertex`, -1), handed to the calculator and the egress template like any other vertex. Real vertices are numbered from 0, and a state's vertex is a `nat`, so a state is never at the null vertex.
- FlexAccessTemplate: the time of a flex trip edge (`FlexTripEdge.getTimeInSeconds`) depends only on the edge's vertices and stops here. In the source the edge also carries its trip and template, so two templates with the same endpoints may have different ride times there. No property proved here depends on those times being equal.
- FlexAccessTemplate: logging and `getTransferEdges`, `getFinalStop`, `getTransfersFromTransferStop`, `getFlexVertex` (one-line accessors outside the itinerary logic) are left out.
- FlexAccessTemplate: `FlexEgressTemplate`, `FlexAccessEgressTemplate` and `FlexServiceDate` are not part of this model. The egress template is a record of uninterpreted functions.
- ContinuousStopsFlexPathCalculator: the trip's `earliestDepartureTime`/`latestArrivalTime` are uninterpreted, so nothing is proved about which positions are feasible.
- FlexTripsMapper: the three classifiers are uninterpreted. The trip's stop-time list is copied in Java, and here it is a sequence value. `ProgressTracker`, logging and `addGeometriesToContinuousStops` (map matching on the street graph) are left out.
- FlexTripsMapper: the index keeps a flex trip under its trip's id (`EntityById.add`). A later trip with the same id replaces the earlier one.
- TripScheduleWithOffset.TripScheduleWithOffset.Arrival: does not model 32-bit overflow of the sum, since trip times and offsets are seconds within a few days.
- TripScheduleWithOffset.TripScheduleWithOffset.Departure: does not model 32-bit overflow of the sum, for the same reason.
- TripScheduleWithOffset: `pattern()` and `getOriginalTripTimes()` return the constant fields `pattern` and `tripTimes`, which the model reads directly. `getOriginalTripPattern()` returns `pattern.getTripPattern().getPattern()`, which is derived from the `pattern` field. It is left out, because `TripPatternForDates` is reduced to its stop indexes here. `TripTimes` and `TripPatternForDates` are reduced to their time and stop-index sequences.
- MaxLimitFilter: itinerary start times are epoch milliseconds taken as given. The `Calendar` they come from is not modelled. The subscriber is modelled by the list of itineraries it is given.
- TransitRoutingConfig: `dynamicSearchWindowCoefficients` (a `double` coefficient and minute settings read from a sub-node) is left out because it involves floating point. The `NodeAdapter` parsing (`asEnumMapAllKeysRequired` validation included) is not part of this model.
- TransitRoutingConfig.StopTransferCost: the requirement that every priority has a key, which the parser enforces when the map is configured, is not assumed.
- StopTimeMapper: MISSING_VALUE is taken as -999, the value of `StopTime.MISSING_VALUE`. The model `StopTime` class is not part of this model.
- StopTimeMapper: the cache is keyed by the whole GTFS stop time as a value. The onebusaway entity's `equals`/`hashCode` are not part of this model.
- StopTimeMapper: the trip, stop, location and location-group mappers are uninterpreted functions, and their own caches are not modelled. `doMap` fills a fresh object through setters, which here is one record construction.
- StopTimeMapper.StopTimeMapper.MapAll: `MapUtils.mapToList` is not part of this model. It is taken as an in-order map that stops at the first exception.
- HierarchicalMap: the implementation class is not part of this model. Only the behaviour the unit test asserts is modelled, and a map value of null is not modelled.
