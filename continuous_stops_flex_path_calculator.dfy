/**
 * ContinuousStopsFlexPathCalculator: the path calculator of a continuous
 * pickup/drop-off trip, whose stop positions are fractional (`real`). The
 * ride takes as long as the trip allows between its earliest departure and
 * its latest arrival; the distance is not tracked.
 */
module ContinuousStopsFlexPathCalculator {
  import opened Common
  import opened FlexTrips
  import opened StreetGraph

  /** FlexPath: a distance in metres and a duration in seconds. */
  datatype FlexPath = FlexPath(distanceMeters: int, durationSeconds: int)

  /** calculateFlexPath(fromv, tov, fromStopIndex, toStopIndex) of a FlexPathCalculator. */
  type Calculator<!P> = (Vertex, Vertex, P, P) -> Option<FlexPath>

  /** The departure the calculator asks for: unbounded below, no ride time. */
  function Departure(trip: FlexTrip<real>, fromStopIndex: real, toStopIndex: real): int {
    trip.earliestDepartureTime(IntMin, fromStopIndex, toStopIndex, 0)
  }

  /** The arrival the calculator asks for: unbounded above, no ride time. */
  function Arrival(trip: FlexTrip<real>, fromStopIndex: real, toStopIndex: real): int {
    trip.latestArrivalTime(IntMax, fromStopIndex, toStopIndex, 0)
  }

  /**
   * calculateFlexPath. No path when the departure is not before the arrival;
   * otherwise a zero-distance path lasting arrival - departure, in Java int
   * arithmetic.
   */
  function CalculateFlexPath(trip: FlexTrip<real>, fromv: Vertex, tov: Vertex,
                             fromStopIndex: real, toStopIndex: real): (r: Option<FlexPath>)
    ensures r.None? <==>
      trip.earliestDepartureTime(IntMin, fromStopIndex, toStopIndex, 0)
        >= trip.latestArrivalTime(IntMax, fromStopIndex, toStopIndex, 0)
    ensures r.Some? ==> r.value.distanceMeters == 0 && IsInt32(r.value.durationSeconds)
  {
    var distance := 0;
    var departureTime := Departure(trip, fromStopIndex, toStopIndex);
    var arrivalTime := Arrival(trip, fromStopIndex, toStopIndex);
    if departureTime >= arrivalTime then None
    else Some(FlexPath(distance, Wrap32(arrivalTime - departureTime)))
  }

  /** The calculator as the capability a template is given. */
  function AsCalculator(trip: FlexTrip<real>): Calculator<real> {
    (fromv, tov, f, t) => CalculateFlexPath(trip, fromv, tov, f, t)
  }

  /**
   * For a feasible (non-negative) departure time, the path lasts exactly
   * arrival - departure seconds, which is strictly positive.
   */
  lemma DurationIsRideTime(trip: FlexTrip<real>, fromv: Vertex, tov: Vertex, f: real, t: real)
    requires 0 <= Departure(trip, f, t)
    requires IsInt32(Arrival(trip, f, t))
    requires Departure(trip, f, t) < Arrival(trip, f, t)
    ensures CalculateFlexPath(trip, fromv, tov, f, t) ==
      Some(FlexPath(0, Arrival(trip, f, t) - Departure(trip, f, t)))
    ensures CalculateFlexPath(trip, fromv, tov, f, t).value.durationSeconds > 0
  {
  }

  /** The vertices play no part: only the stop positions matter. */
  lemma IndependentOfVertices(trip: FlexTrip<real>, v1: Vertex, w1: Vertex, v2: Vertex, w2: Vertex,
                              f: real, t: real)
    ensures CalculateFlexPath(trip, v1, w1, f, t) == CalculateFlexPath(trip, v2, w2, f, t)
  {
  }

  /**
   * The infeasible answer -1 is not filtered out: an infeasible departure with
   * a feasible arrival still yields a path, one second longer than the arrival.
   */
  lemma InfeasibleDepartureStillYieldsPath(trip: FlexTrip<real>, fromv: Vertex, tov: Vertex, f: real, t: real)
    requires Departure(trip, f, t) == Infeasible
    requires 0 <= Arrival(trip, f, t) < IntMax
    ensures CalculateFlexPath(trip, fromv, tov, f, t) == Some(FlexPath(0, Arrival(trip, f, t) + 1))
  {
  }

  /** The subtraction is Java int arithmetic: it can wrap to a negative duration. */
  lemma DurationCanWrap(trip: FlexTrip<real>, fromv: Vertex, tov: Vertex, f: real, t: real)
    requires Departure(trip, f, t) == Infeasible
    requires Arrival(trip, f, t) == IntMax
    ensures CalculateFlexPath(trip, fromv, tov, f, t) == Some(FlexPath(0, IntMin))
  {
  }
}
