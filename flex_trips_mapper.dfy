/**
 * FlexTripsMapper.createFlexTrips: classifies every trip's stop times, first
 * match wins, and adds at most one flex trip per trip to the builder's
 * flexTripsById index. The three tests (UnscheduledTrip.isUnscheduledTrip,
 * ScheduledDeviatedTrip.isScheduledFlexTrip,
 * ContinuousPickupDropOffTrip.hasContinuousStops) are not part of this model
 * and are taken as uninterpreted predicates.
 */
module FlexTripsMapper {
  import opened Common
  import opened TransitModel

  /** One entry of the builder's stop times sorted by trip. */
  datatype TripStopTimes = TripStopTimes(trip: TripId, stopTimes: seq<StopTime>)

  datatype FlexTrip =
    | UnscheduledTrip(trip: TripId, stopTimes: seq<StopTime>)
    | ScheduledDeviatedTrip(trip: TripId, stopTimes: seq<StopTime>)
    | ContinuousPickupDropOffTrip(trip: TripId, stopTimes: seq<StopTime>)

  datatype Classifiers = Classifiers(
    isUnscheduledTrip: seq<StopTime> -> bool,
    isScheduledFlexTrip: seq<StopTime> -> bool,
    hasContinuousStops: seq<StopTime> -> bool)

  /**
   * The flex trip a trip becomes, if any. Each variant is chosen exactly when
   * its own test holds and every earlier test fails; no test holding means no
   * flex trip.
   */
  function Classify(c: Classifiers, entry: TripStopTimes): (r: Option<FlexTrip>)
    ensures r.Some? ==> r.value.trip == entry.trip && r.value.stopTimes == entry.stopTimes
    ensures r.Some? && r.value.UnscheduledTrip? <==> c.isUnscheduledTrip(entry.stopTimes)
    ensures r.Some? && r.value.ScheduledDeviatedTrip? <==>
      !c.isUnscheduledTrip(entry.stopTimes) && c.isScheduledFlexTrip(entry.stopTimes)
    ensures r.Some? && r.value.ContinuousPickupDropOffTrip? <==>
      !c.isUnscheduledTrip(entry.stopTimes) && !c.isScheduledFlexTrip(entry.stopTimes)
      && c.hasContinuousStops(entry.stopTimes)
    ensures r.None? <==>
      !c.isUnscheduledTrip(entry.stopTimes) && !c.isScheduledFlexTrip(entry.stopTimes)
      && !c.hasContinuousStops(entry.stopTimes)
  {
    var stopTimes := entry.stopTimes;
    if c.isUnscheduledTrip(stopTimes) then Some(UnscheduledTrip(entry.trip, stopTimes))
    else if c.isScheduledFlexTrip(stopTimes) then Some(ScheduledDeviatedTrip(entry.trip, stopTimes))
    else if c.hasContinuousStops(stopTimes) then Some(ContinuousPickupDropOffTrip(entry.trip, stopTimes))
    else None
  }

  /** The entries the classification of `trips` adds to an index, in order. */
  function ClassifiedIndex(c: Classifiers, trips: seq<TripStopTimes>): map<TripId, FlexTrip>
    decreases |trips|
  {
    if trips == [] then map[]
    else
      var index := ClassifiedIndex(c, trips[..|trips| - 1]);
      var last := trips[|trips| - 1];
      match Classify(c, last)
      case None => index
      case Some(flexTrip) => index[last.trip := flexTrip]
  }

  /** A trip is in the index exactly when some entry for it classified. */
  lemma {:induction false} ClassifiedIndexKeys(c: Classifiers, trips: seq<TripStopTimes>, id: TripId)
    ensures id in ClassifiedIndex(c, trips) <==>
      exists i :: 0 <= i < |trips| && trips[i].trip == id && Classify(c, trips[i]).Some?
    decreases |trips|
  {
    if trips != [] {
      var front := trips[..|trips| - 1];
      ClassifiedIndexKeys(c, front, id);
      if id in ClassifiedIndex(c, front) {
        var i :| 0 <= i < |front| && front[i].trip == id && Classify(c, front[i]).Some?;
        assert trips[i] == front[i];
      }
      forall i | 0 <= i < |trips| - 1
        ensures trips[i] == front[i]
      {
      }
    }
  }

  /**
   * Every indexed flex trip is the classification of an entry for its trip:
   * of the last classified one, when one trip has several entries.
   */
  lemma {:induction false} ClassifiedIndexValues(c: Classifiers, trips: seq<TripStopTimes>, id: TripId)
    requires id in ClassifiedIndex(c, trips)
    ensures exists i :: 0 <= i < |trips| && trips[i].trip == id &&
                        Classify(c, trips[i]) == Some(ClassifiedIndex(c, trips)[id])
    decreases |trips|
  {
    var front := trips[..|trips| - 1];
    var last := trips[|trips| - 1];
    if Classify(c, last).Some? && last.trip == id {
      assert Classify(c, trips[|trips| - 1]) == Some(ClassifiedIndex(c, trips)[id]);
    } else {
      ClassifiedIndexValues(c, front, id);
      var i :| 0 <= i < |front| && front[i].trip == id
        && Classify(c, front[i]) == Some(ClassifiedIndex(c, front)[id]);
      assert trips[i] == front[i];
    }
  }

  /** At most one flex trip per trip: the index is never larger than the input. */
  lemma {:induction false} ClassifiedIndexSize(c: Classifiers, trips: seq<TripStopTimes>)
    ensures |ClassifiedIndex(c, trips)| <= |trips|
    decreases |trips|
  {
    if trips != [] {
      ClassifiedIndexSize(c, trips[..|trips| - 1]);
    }
  }

  /** A trip none of whose entries classifies leaves no entry in the index. */
  lemma UnclassifiedTripAbsent(c: Classifiers, trips: seq<TripStopTimes>, id: TripId)
    requires forall i :: 0 <= i < |trips| && trips[i].trip == id ==> Classify(c, trips[i]).None?
    ensures id !in ClassifiedIndex(c, trips)
  {
    ClassifiedIndexKeys(c, trips, id);
  }

  /** The part of the transit service builder the mapper fills in. */
  class TransitServiceBuilder {
    var flexTripsById: map<TripId, FlexTrip>

    constructor ()
      ensures flexTripsById == map[]
    {
      flexTripsById := map[];
    }

    /**
     * createFlexTrips: the index gains exactly the classified trips, each
     * under its trip's id. The input (a sequence value) is left as it was.
     */
    method CreateFlexTrips(c: Classifiers, stopTimesByTrip: seq<TripStopTimes>)
      modifies this
      ensures flexTripsById == old(flexTripsById) + ClassifiedIndex(c, stopTimesByTrip)
    {
      for i := 0 to |stopTimesByTrip|
        invariant flexTripsById == old(flexTripsById) + ClassifiedIndex(c, stopTimesByTrip[..i])
      {
        assert stopTimesByTrip[..i + 1][..i] == stopTimesByTrip[..i];
        var trip := stopTimesByTrip[i].trip;
        // the stop times are copied before classification
        var stopTimes := stopTimesByTrip[i].stopTimes;

        if c.isUnscheduledTrip(stopTimes) {
          flexTripsById := flexTripsById[trip := UnscheduledTrip(trip, stopTimes)];
        } else if c.isScheduledFlexTrip(stopTimes) {
          flexTripsById := flexTripsById[trip := ScheduledDeviatedTrip(trip, stopTimes)];
        } else if c.hasContinuousStops(stopTimes) {
          flexTripsById := flexTripsById[trip := ContinuousPickupDropOffTrip(trip, stopTimes)];
        }
      }
      assert stopTimesByTrip[..|stopTimesByTrip|] == stopTimesByTrip;
    }
  }
}
