/**
 * StopTimeMapper: maps a GTFS stop time into the transit model's StopTime,
 * once per original: results are memoised in the mapper's own cache. The
 * trip, stop, location and location-group mappers are not part of this model
 * and are taken as uninterpreted functions.
 */
module StopTimeMapper {
  import opened Common
  import opened TransitModel

  /** StopTime.MISSING_VALUE: the marker of an unset time field. */
  const MissingValue := -999

  /** The stop of a GTFS stop time, by its runtime class. */
  datatype GtfsStopLocation =
    | GtfsStop(id: int)
    | GtfsLocation(id: int)
    | GtfsLocationGroup(id: int)
    | OtherStopLocation(id: int)

  /** A GTFS stop time as read from the feed; `stop` is None for null. */
  datatype GtfsStopTime = GtfsStopTime(
    trip: int,
    stop: Option<GtfsStopLocation>,
    arrivalTime: int,
    departureTime: int,
    timepoint: int,
    stopSequence: int,
    stopHeadsign: string,
    routeShortName: string,
    pickupType: int,
    dropOffType: int,
    shapeDistTraveled: real,
    farePeriodId: string,
    startPickupDropOffWindow: int,
    endPickupDropOffWindow: int,
    minArrivalTime: int,
    maxDepartureTime: int,
    continuousPickup: int,
    continuousDropOff: int,
    hasProxy: bool)

  datatype Mappers = Mappers(
    tripMapper: int -> TripId,
    stopMapper: int -> StopLocationId,
    locationMapper: int -> StopLocationId,
    locationGroupMapper: int -> StopLocationId)

  /** The stop dispatch: the mapper of the stop's own kind; unset for null or any other kind. */
  function MapStop(m: Mappers, stop: Option<GtfsStopLocation>): (r: Option<StopLocationId>)
    ensures r.None? <==> stop.None? || stop.value.OtherStopLocation?
    ensures stop.Some? && stop.value.GtfsStop? ==> r == Some(m.stopMapper(stop.value.id))
    ensures stop.Some? && stop.value.GtfsLocation? ==> r == Some(m.locationMapper(stop.value.id))
    ensures stop.Some? && stop.value.GtfsLocationGroup? ==> r == Some(m.locationGroupMapper(stop.value.id))
  {
    match stop
    case None => None
    case Some(GtfsStop(id)) => Some(m.stopMapper(id))
    case Some(GtfsLocation(id)) => Some(m.locationMapper(id))
    case Some(GtfsLocationGroup(id)) => Some(m.locationGroupMapper(id))
    case Some(OtherStopLocation(_)) => None
  }

  /** A flex window bound: the new GTFS field unless it is missing, then the legacy one. */
  function WindowBound(newField: int, legacyField: int): int {
    if newField != MissingValue then newField else legacyField
  }

  /**
   * doMap: a fresh StopTime with the trip and stop mapped, the times, types
   * and texts copied, and the flex window taken from the new fields or, where
   * those are missing, the legacy ones. An original carrying a proxy is
   * refused with an IllegalStateException.
   */
  function DoMap(m: Mappers, rhs: GtfsStopTime): (r: Outcome<StopTime>)
    ensures r.Thrown? <==> rhs.hasProxy
    ensures r.Thrown? ==> r.exception.IllegalState?
    ensures r.Returned? ==>
      && r.value.trip == m.tripMapper(rhs.trip)
      && r.value.stop == MapStop(m, rhs.stop)
      && r.value.arrivalTime == rhs.arrivalTime
      && r.value.departureTime == rhs.departureTime
      && r.value.timepoint == rhs.timepoint
      && r.value.stopSequence == rhs.stopSequence
      && r.value.stopHeadsign == rhs.stopHeadsign
      && r.value.routeShortName == rhs.routeShortName
      && r.value.pickupType == rhs.pickupType
      && r.value.dropOffType == rhs.dropOffType
      && r.value.shapeDistTraveled == rhs.shapeDistTraveled
      && r.value.farePeriodId == rhs.farePeriodId
      && r.value.flexContinuousPickup == rhs.continuousPickup
      && r.value.flexContinuousDropOff == rhs.continuousDropOff
    ensures r.Returned? ==>
      && (rhs.startPickupDropOffWindow != MissingValue ==> r.value.flexWindowStart == rhs.startPickupDropOffWindow)
      && (rhs.startPickupDropOffWindow == MissingValue ==> r.value.flexWindowStart == rhs.minArrivalTime)
      && (rhs.endPickupDropOffWindow != MissingValue ==> r.value.flexWindowEnd == rhs.endPickupDropOffWindow)
      && (rhs.endPickupDropOffWindow == MissingValue ==> r.value.flexWindowEnd == rhs.maxDepartureTime)
  {
    var lhs := StopTime(
      m.tripMapper(rhs.trip),
      MapStop(m, rhs.stop),
      rhs.arrivalTime,
      rhs.departureTime,
      rhs.timepoint,
      rhs.stopSequence,
      rhs.stopHeadsign,
      rhs.routeShortName,
      rhs.pickupType,
      rhs.dropOffType,
      rhs.shapeDistTraveled,
      rhs.farePeriodId,
      WindowBound(rhs.startPickupDropOffWindow, rhs.minArrivalTime),
      WindowBound(rhs.endPickupDropOffWindow, rhs.maxDepartureTime),
      rhs.continuousPickup,
      rhs.continuousDropOff);
    if rhs.hasProxy then Thrown(IllegalState("Did not expect proxy to be set!"))
    else Returned(lhs)
  }

  /** What `map` yields for an original, uncached: null for null, else doMap's outcome. */
  function MapOne(m: Mappers, original: Option<GtfsStopTime>): (r: Outcome<Option<StopTime>>)
    ensures original.None? ==> r == Returned(None)
    ensures r.Returned? && original.Some? ==> r.value.Some? && DoMap(m, original.value) == Returned(r.value.value)
    ensures r.Thrown? <==> original.Some? && DoMap(m, original.value).Thrown?
  {
    match original
    case None => Returned(None)
    case Some(rhs) =>
      match DoMap(m, rhs)
      case Returned(lhs) => Returned(Some(lhs))
      case Thrown(e) => Thrown(e)
  }

  class StopTimeMapper {
    const mappers: Mappers
    var mappedStopTimes: map<GtfsStopTime, StopTime>
    /** Every doMap call so far, with multiplicity. */
    ghost var doMapCalls: multiset<GtfsStopTime>

    /**
     * Every cached entry is doMap's result for its key, doMap ran exactly once
     * for every cached key, and every other key doMap ran for was refused.
     */
    ghost predicate Valid()
      reads this
    {
      && (forall k :: k in mappedStopTimes ==> DoMap(mappers, k) == Returned(mappedStopTimes[k]))
      && (forall k :: k in mappedStopTimes ==> doMapCalls[k] == 1)
      && (forall k :: k in doMapCalls && k !in mappedStopTimes ==> k.hasProxy)
    }

    constructor (mappers: Mappers)
      ensures Valid()
      ensures this.mappers == mappers && mappedStopTimes == map[] && doMapCalls == multiset{}
    {
      this.mappers := mappers;
      mappedStopTimes := map[];
      doMapCalls := multiset{};
    }

    /**
     * map: null for null; otherwise the cached result, or doMap's result,
     * which is cached when doMap returns. The outcome is always what an
     * uncached mapping would give.
     */
    method Map(original: Option<GtfsStopTime>) returns (r: Outcome<Option<StopTime>>)
      requires Valid()
      modifies this
      ensures Valid()
      ensures r == MapOne(mappers, original)
      ensures original.None? || original.value in old(mappedStopTimes) ==>
        mappedStopTimes == old(mappedStopTimes) && doMapCalls == old(doMapCalls)
      ensures original.Some? && original.value !in old(mappedStopTimes) ==>
        && doMapCalls == old(doMapCalls) + multiset{original.value}
        && mappedStopTimes == if r.Returned? then old(mappedStopTimes)[original.value := r.value.value]
                              else old(mappedStopTimes)
    {
      if original.None? {
        return Returned(None);
      }
      var rhs := original.value;
      if rhs in mappedStopTimes {
        return Returned(Some(mappedStopTimes[rhs]));
      }
      var lhs := DoMap(mappers, rhs);
      doMapCalls := doMapCalls + multiset{rhs};
      match lhs {
        case Thrown(e) =>
          r := Thrown(e);
        case Returned(v) =>
          mappedStopTimes := mappedStopTimes[rhs := v];
          r := Returned(Some(v));
      }
    }

    /**
     * map over a collection: each element mapped in order, the first
     * exception ending the mapping. The originals mapped before that are
     * cached, and doMap runs once for each original that was not cached yet,
     * the failing one included.
     */
    method MapAll(times: seq<Option<GtfsStopTime>>) returns (r: Outcome<seq<Option<StopTime>>>)
      requires Valid()
      modifies this
      ensures Valid()
      ensures r.Returned? ==>
        |r.value| == |times| &&
        forall i :: 0 <= i < |times| ==> MapOne(mappers, times[i]) == Returned(r.value[i])
      ensures r.Thrown? <==> exists i :: 0 <= i < |times| && MapOne(mappers, times[i]).Thrown?
      ensures var n := FirstThrown(mappers, times);
        && mappedStopTimes.Keys == old(mappedStopTimes).Keys + Originals(times[..n])
        && (forall k :: k in old(mappedStopTimes) ==> mappedStopTimes[k] == old(mappedStopTimes)[k])
        && doMapCalls == old(doMapCalls) + multiset(Originals(times[..n]) - old(mappedStopTimes).Keys)
                         + (if n < |times| then multiset{times[n].value} else multiset{})
    {
      ghost var initial, initialCalls := mappedStopTimes, doMapCalls;
      MapAllStart(mappers, initial, initialCalls, times);
      var mapped: seq<Option<StopTime>> := [];
      for i := 0 to |times|
        invariant Valid()
        invariant MapAllProgress(mappers, initial, initialCalls, times, i, mapped, mappedStopTimes, doMapCalls)
      {
        ghost var before, callsBefore := mappedStopTimes, doMapCalls;
        var one := Map(times[i]);
        if one.Thrown? {
          MapAllStopped(mappers, initial, initialCalls, times, i, mapped, before, callsBefore,
                        mappedStopTimes, doMapCalls, one);
          return Thrown(one.exception);
        }
        MapAllStep(mappers, initial, initialCalls, times, i, mapped, before, callsBefore,
                   mappedStopTimes, doMapCalls, one);
        mapped := mapped + [one.value];
      }
      MapAllDone(mappers, initial, initialCalls, times, mapped, mappedStopTimes, doMapCalls);
      return Returned(mapped);
    }
  }

  /**
   * Where mapAll stands after `i` elements: each was mapped as an uncached
   * mapping would, the cache holds its initial entries and the originals seen
   * so far, and doMap ran once for each of those that was not cached at the start.
   */
  ghost predicate MapAllProgress(m: Mappers, initial: map<GtfsStopTime, StopTime>, initialCalls: multiset<GtfsStopTime>,
                                 times: seq<Option<GtfsStopTime>>, i: nat, mapped: seq<Option<StopTime>>,
                                 cache: map<GtfsStopTime, StopTime>, calls: multiset<GtfsStopTime>)
  {
    && i <= |times| && |mapped| == i
    && (forall j :: 0 <= j < i ==> MapOne(m, times[j]) == Returned(mapped[j]))
    && cache.Keys == initial.Keys + Originals(times[..i])
    && (forall k :: k in initial ==> cache[k] == initial[k])
    && calls == initialCalls + multiset(Originals(times[..i]) - initial.Keys)
  }

  /** Nothing is mapped before the first element. */
  lemma MapAllStart(m: Mappers, initial: map<GtfsStopTime, StopTime>, initialCalls: multiset<GtfsStopTime>,
                    times: seq<Option<GtfsStopTime>>)
    ensures MapAllProgress(m, initial, initialCalls, times, 0, [], initial, initialCalls)
  {
    assert Originals(times[..0]) == {};
  }

  /** A `map` call inside mapAll that returns moves the progress one element on. */
  lemma MapAllStep(m: Mappers, initial: map<GtfsStopTime, StopTime>, initialCalls: multiset<GtfsStopTime>,
                   times: seq<Option<GtfsStopTime>>, i: nat, mapped: seq<Option<StopTime>>,
                   before: map<GtfsStopTime, StopTime>, callsBefore: multiset<GtfsStopTime>,
                   after: map<GtfsStopTime, StopTime>, callsAfter: multiset<GtfsStopTime>,
                   one: Outcome<Option<StopTime>>)
    requires MapAllProgress(m, initial, initialCalls, times, i, mapped, before, callsBefore)
    requires i < |times| && one == MapOne(m, times[i]) && one.Returned?
    requires times[i].None? || times[i].value in before ==> after == before && callsAfter == callsBefore
    requires times[i].Some? && times[i].value !in before ==>
      callsAfter == callsBefore + multiset{times[i].value} && after == before[times[i].value := one.value.value]
    ensures MapAllProgress(m, initial, initialCalls, times, i + 1, mapped + [one.value], after, callsAfter)
  {
    OriginalsSnoc(times, i);
    MappedGrows(m, times, mapped, i, one.value);
    CacheStep(initial, initialCalls, Originals(times[..i]), before, after, callsBefore, callsAfter, times[i], one.value);
  }

  /**
   * The `map` call that throws inside mapAll: it is at the first failing
   * position, for an original that was not cached, and doMap ran for it.
   */
  lemma MapAllStopped(m: Mappers, initial: map<GtfsStopTime, StopTime>, initialCalls: multiset<GtfsStopTime>,
                      times: seq<Option<GtfsStopTime>>, i: nat, mapped: seq<Option<StopTime>>,
                      before: map<GtfsStopTime, StopTime>, callsBefore: multiset<GtfsStopTime>,
                      after: map<GtfsStopTime, StopTime>, callsAfter: multiset<GtfsStopTime>,
                      one: Outcome<Option<StopTime>>)
    requires MapAllProgress(m, initial, initialCalls, times, i, mapped, before, callsBefore)
    requires forall k :: k in before ==> DoMap(m, k) == Returned(before[k])
    requires i < |times| && one == MapOne(m, times[i]) && one.Thrown?
    requires times[i].None? || times[i].value in before ==> after == before && callsAfter == callsBefore
    requires times[i].Some? && times[i].value !in before ==>
      callsAfter == callsBefore + multiset{times[i].value} && after == before
    ensures exists j :: 0 <= j < |times| && MapOne(m, times[j]).Thrown?
    ensures var n := FirstThrown(m, times);
      && n < |times|
      && after.Keys == initial.Keys + Originals(times[..n])
      && (forall k :: k in initial ==> after[k] == initial[k])
      && callsAfter == initialCalls + multiset(Originals(times[..n]) - initial.Keys) + multiset{times[n].value}
  {
    MapThrownStep(m, before, after, callsBefore, callsAfter, times[i], one);
    assert FirstThrown(m, times) == i;
  }

  /** mapAll without an exception: every element mapped, and the progress is the final state. */
  lemma MapAllDone(m: Mappers, initial: map<GtfsStopTime, StopTime>, initialCalls: multiset<GtfsStopTime>,
                   times: seq<Option<GtfsStopTime>>, mapped: seq<Option<StopTime>>,
                   cache: map<GtfsStopTime, StopTime>, calls: multiset<GtfsStopTime>)
    requires MapAllProgress(m, initial, initialCalls, times, |times|, mapped, cache, calls)
    ensures |mapped| == |times|
    ensures forall i :: 0 <= i < |times| ==> MapOne(m, times[i]) == Returned(mapped[i])
    ensures !exists i :: 0 <= i < |times| && MapOne(m, times[i]).Thrown?
    ensures var n := FirstThrown(m, times);
      && n == |times|
      && cache.Keys == initial.Keys + Originals(times[..n])
      && (forall k :: k in initial ==> cache[k] == initial[k])
      && calls == initialCalls + multiset(Originals(times[..n]) - initial.Keys)
  {
    assert FirstThrown(m, times) == |times|;
  }

  /** Appending the result for position `i` extends a pointwise match of the first `i` results. */
  lemma MappedGrows(m: Mappers, times: seq<Option<GtfsStopTime>>, mapped: seq<Option<StopTime>>, i: nat,
                    next: Option<StopTime>)
    requires i < |times| && |mapped| == i
    requires forall j :: 0 <= j < i ==> MapOne(m, times[j]) == Returned(mapped[j])
    requires MapOne(m, times[i]) == Returned(next)
    ensures forall j :: 0 <= j < i + 1 ==> MapOne(m, times[j]) == Returned((mapped + [next])[j])
  {
  }

  /** The originals of a collection grow by its last element only. */
  lemma OriginalsSnoc(times: seq<Option<GtfsStopTime>>, i: nat)
    requires i < |times|
    ensures Originals(times[..i + 1]) == Originals(times[..i]) + (if times[i].Some? then {times[i].value} else {})
  {
    assert times[..i + 1][..i] == times[..i];
  }

  /**
   * A successful `map` call inside mapAll: the cache keeps its entries and
   * gains the original if it was not cached yet, and only then did doMap run.
   */
  lemma CacheStep<K, V>(initial: map<K, V>, initialCalls: multiset<K>, seen: set<K>,
                        before: map<K, V>, after: map<K, V>,
                        callsBefore: multiset<K>, callsAfter: multiset<K>, original: Option<K>, v: Option<V>)
    requires before.Keys == initial.Keys + seen
    requires forall k :: k in initial ==> before[k] == initial[k]
    requires callsBefore == initialCalls + multiset(seen - initial.Keys)
    requires original.Some? ==> v.Some?
    requires original.None? || original.value in before ==> after == before && callsAfter == callsBefore
    requires original.Some? && original.value !in before ==>
      callsAfter == callsBefore + multiset{original.value} && after == before[original.value := v.value]
    ensures var seen' := seen + (if original.Some? then {original.value} else {});
      && after.Keys == initial.Keys + seen'
      && (forall k :: k in initial ==> after[k] == initial[k])
      && callsAfter == initialCalls + multiset(seen' - initial.Keys)
  {
    if original.None? {
      assert seen + {} == seen;
    } else if original.value in before {
      CacheHitStep(initial.Keys, seen, original.value);
    } else {
      MapNewStep(initial, initialCalls, seen, before, original.value, v.value);
    }
  }

  /** A cache hit inside mapAll: the seen originals grow by nothing new. */
  lemma CacheHitStep<K>(cached: set<K>, seen: set<K>, x: K)
    requires x in cached + seen
    ensures cached + (seen + {x}) == cached + seen
    ensures (seen + {x}) - cached == seen - cached
  {
  }

  /**
   * A successful `map` call inside mapAll for an original not cached yet: the
   * cache keeps its entries and gains the original, and doMap ran once for it.
   */
  lemma MapNewStep<K, V>(initial: map<K, V>, initialCalls: multiset<K>, seen: set<K>,
                         before: map<K, V>, x: K, v: V)
    requires before.Keys == initial.Keys + seen
    requires forall k :: k in initial ==> before[k] == initial[k]
    requires x !in before
    ensures before[x := v].Keys == initial.Keys + (seen + {x})
    ensures forall k :: k in initial ==> before[x := v][k] == initial[k]
    ensures initialCalls + multiset(seen - initial.Keys) + multiset{x}
      == initialCalls + multiset((seen + {x}) - initial.Keys)
  {
    OriginalCountedOnce(seen, initial.Keys, x);
  }

  /** An original neither seen nor cached adds one doMap call. */
  lemma OriginalCountedOnce<K>(seen: set<K>, cached: set<K>, x: K)
    requires x !in seen + cached
    ensures multiset((seen + {x}) - cached) == multiset(seen - cached) + multiset{x}
  {
    assert (seen + {x}) - cached == (seen - cached) + {x};
  }

  /** The `map` call that throws inside mapAll was for an uncached original, and doMap ran for it. */
  lemma MapThrownStep(m: Mappers, before: map<GtfsStopTime, StopTime>, after: map<GtfsStopTime, StopTime>,
                      callsBefore: multiset<GtfsStopTime>, callsAfter: multiset<GtfsStopTime>,
                      original: Option<GtfsStopTime>, r: Outcome<Option<StopTime>>)
    requires forall k :: k in before ==> DoMap(m, k) == Returned(before[k])
    requires r == MapOne(m, original) && r.Thrown?
    requires original.None? || original.value in before ==> after == before && callsAfter == callsBefore
    requires original.Some? && original.value !in before ==>
      callsAfter == callsBefore + multiset{original.value} && after == before
    ensures original.Some? && original.value !in before
    ensures after == before && callsAfter == callsBefore + multiset{original.value}
  {
  }

  /** The position of the first original whose mapping throws; the length when none does. */
  function FirstThrown(m: Mappers, times: seq<Option<GtfsStopTime>>): (n: nat)
    ensures n <= |times|
    ensures forall j :: 0 <= j < n ==> MapOne(m, times[j]).Returned?
    ensures n < |times| ==> MapOne(m, times[n]).Thrown?
  {
    if |times| == 0 then 0
    else if MapOne(m, times[0]).Thrown? then 0
    else 1 + FirstThrown(m, times[1..])
  }

  /** The originals of a collection are exactly its non-null elements. */
  lemma {:induction false} OriginalsAreNonNull(times: seq<Option<GtfsStopTime>>, o: GtfsStopTime)
    ensures o in Originals(times) <==> Some(o) in times
    decreases |times|
  {
    if |times| != 0 {
      var init := times[..|times| - 1];
      OriginalsAreNonNull(init, o);
      assert times == init + [times[|times| - 1]];
    }
  }

  /** The non-null originals of a collection. */
  function Originals(times: seq<Option<GtfsStopTime>>): set<GtfsStopTime> {
    if |times| == 0 then {}
    else
      var last := times[|times| - 1];
      Originals(times[..|times| - 1]) + (if last.Some? then {last.value} else {})
  }

  /** Mapping the same original twice gives the same result, and the second call leaves the cache alone. */
  method MapTwice(mapper: StopTimeMapper, original: GtfsStopTime) returns (first: Outcome<Option<StopTime>>, second: Outcome<Option<StopTime>>)
    requires mapper.Valid()
    modifies mapper
    ensures first == second
    ensures first.Returned? ==> mapper.doMapCalls[original] == 1
  {
    first := mapper.Map(Some(original));
    ghost var cacheAfterFirst := mapper.mappedStopTimes;
    second := mapper.Map(Some(original));
    assert first.Returned? ==> original in cacheAfterFirst;
  }

  /** The window start equals the marker only when the new and the legacy fields both do. */
  lemma WindowMissingOnlyWhenBothMissing(m: Mappers, rhs: GtfsStopTime)
    requires DoMap(m, rhs).Returned?
    ensures DoMap(m, rhs).value.flexWindowStart == MissingValue <==>
      rhs.startPickupDropOffWindow == MissingValue && rhs.minArrivalTime == MissingValue
    ensures DoMap(m, rhs).value.flexWindowEnd == MissingValue <==>
      rhs.endPickupDropOffWindow == MissingValue && rhs.maxDepartureTime == MissingValue
  {
  }

  /** With both new window fields set, the legacy fields do not affect the result. */
  lemma LegacyFieldsIgnoredWhenNewSet(m: Mappers, rhs: GtfsStopTime, legacyMin: int, legacyMax: int)
    requires rhs.startPickupDropOffWindow != MissingValue && rhs.endPickupDropOffWindow != MissingValue
    ensures DoMap(m, rhs.(minArrivalTime := legacyMin, maxDepartureTime := legacyMax)) == DoMap(m, rhs)
  {
  }

  /** A proxy makes mapping fail whatever else the stop time holds; without one it never fails. */
  lemma FailsExactlyOnProxy(m: Mappers, original: GtfsStopTime)
    ensures MapOne(m, Some(original)).Thrown? <==> original.hasProxy
  {
  }
}
