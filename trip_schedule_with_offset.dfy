/**
 * TripScheduleWithOffset: one trip of a trip pattern seen on a later service
 * day. Every time is the canonical trip time plus a fixed offset in seconds;
 * the pattern (its stop sequence) is shared, not owned.
 */
module TripScheduleWithOffset {
  import opened Common

  type Date = int

  /** The trip's canonical times, one arrival and one departure per stop position. */
  datatype TripTimes = TripTimes(arrivalTimes: seq<int>, departureTimes: seq<int>)

  /** The pattern's stop index at every stop position. */
  datatype TripPatternForDates = TripPatternForDates(stopIndexes: seq<int>)

  class TripScheduleWithOffset {
    const secondsOffset: int
    const pattern: TripPatternForDates
    const tripTimes: TripTimes
    const serviceDate: Date

    constructor (pattern: TripPatternForDates, localDate: Date, tripTimes: TripTimes, offset: int)
      ensures this.pattern == pattern && this.tripTimes == tripTimes
      ensures secondsOffset == offset && serviceDate == localDate
    {
      this.pattern := pattern;
      this.tripTimes := tripTimes;
      this.secondsOffset := offset;
      this.serviceDate := localDate;
    }

    /** The trip times cover every stop position of the pattern. */
    predicate Valid() {
      |tripTimes.arrivalTimes| == |pattern.stopIndexes| &&
      |tripTimes.departureTimes| == |pattern.stopIndexes|
    }

    function NumberOfStopsInPattern(): nat {
      |pattern.stopIndexes|
    }

    /** arrival: the canonical arrival moved by the offset. */
    function Arrival(stopPosInPattern: nat): (r: int)
      requires stopPosInPattern < |tripTimes.arrivalTimes|
      ensures r - secondsOffset == tripTimes.arrivalTimes[stopPosInPattern]
    {
      tripTimes.arrivalTimes[stopPosInPattern] + secondsOffset
    }

    /** departure: the canonical departure moved by the offset. */
    function Departure(stopPosInPattern: nat): (r: int)
      requires stopPosInPattern < |tripTimes.departureTimes|
      ensures r - secondsOffset == tripTimes.departureTimes[stopPosInPattern]
    {
      tripTimes.departureTimes[stopPosInPattern] + secondsOffset
    }

    function GetSecondsOffset(): (r: int)
      ensures r == secondsOffset
    {
      secondsOffset
    }

    function GetServiceDate(): (r: Date)
      ensures r == serviceDate
    {
      serviceDate
    }

    /** The time findStopPosInPattern compares at position `i`. */
    function TimeAt(i: nat, departure: bool): int
      requires Valid() && i < NumberOfStopsInPattern()
    {
      if departure then Departure(i) else Arrival(i)
    }

    /** Position `i` serves `stopIndex` at exactly `time`, in the asked direction. */
    predicate Matches(i: nat, stopIndex: int, time: int, departure: bool)
      requires Valid() && i < NumberOfStopsInPattern()
    {
      pattern.stopIndexes[i] == stopIndex && TimeAt(i, departure) == time
    }

    /**
     * findStopPosInPattern: the first stop position serving `stopIndex` at
     * exactly `time`; IllegalStateException when there is none.
     */
    method FindStopPosInPattern(stopIndex: int, time: int, departure: bool) returns (r: Outcome<nat>)
      requires Valid()
      ensures r.Returned? ==>
        && r.value < NumberOfStopsInPattern()
        && Matches(r.value, stopIndex, time, departure)
        && forall j :: 0 <= j < r.value ==> !Matches(j, stopIndex, time, departure)
      ensures r.Thrown? ==>
        && r.exception.IllegalState?
        && forall j :: 0 <= j < NumberOfStopsInPattern() ==> !Matches(j, stopIndex, time, departure)
    {
      for i := 0 to NumberOfStopsInPattern()
        invariant forall j :: 0 <= j < i ==> !Matches(j, stopIndex, time, departure)
      {
        if pattern.stopIndexes[i] != stopIndex { continue; }
        var t := if departure then Departure(i) else Arrival(i);
        if t == time { return Returned(i); }
      }
      return Thrown(IllegalState("No stop position(index) in pattern found."));
    }
  }

  /**
   * Two projections of the same trip differ by the difference of their
   * offsets at every position, in both directions.
   */
  lemma ProjectionsDifferByOffset(a: TripScheduleWithOffset, b: TripScheduleWithOffset, i: nat)
    requires a.tripTimes == b.tripTimes && a.Valid()
    requires i < a.NumberOfStopsInPattern()
    ensures b.Arrival(i) - a.Arrival(i) == b.secondsOffset - a.secondsOffset
    ensures b.Departure(i) - a.Departure(i) == b.secondsOffset - a.secondsOffset
  {
  }

  /**
   * A position is found for a time exactly when it is found, in the canonical
   * trip, for that time minus the offset.
   */
  lemma MatchIsCanonicalMatch(s: TripScheduleWithOffset, i: nat, stopIndex: int, time: int, departure: bool)
    requires s.Valid() && i < s.NumberOfStopsInPattern()
    ensures s.Matches(i, stopIndex, time, departure) <==>
      s.pattern.stopIndexes[i] == stopIndex &&
      (if departure then s.tripTimes.departureTimes[i] else s.tripTimes.arrivalTimes[i]) == time - s.secondsOffset
  {
  }
}
