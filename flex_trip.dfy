/**
 * The feasibility capability every flex trip variant offers (UnscheduledTrip,
 * ScheduledDeviatedTrip and ContinuousPickupDropOffTrip are not part of this
 * model). A position `P` is the trip's own stop index type: an integer index
 * for discrete trips, a fractional one (`real`) for continuous trips.
 */
module FlexTrips {

  /** The value both queries return when no feasible time exists. */
  const Infeasible: int := -1

  /**
   * earliestDepartureTime(lowerBound, fromStopIndex, toStopIndex, rideDuration)
   * and latestArrivalTime(upperBound, fromStopIndex, toStopIndex, rideDuration),
   * taken as uninterpreted functions.
   */
  datatype FlexTrip<!P> = FlexTrip(
    earliestDepartureTime: (int, P, P, int) -> int,
    latestArrivalTime: (int, P, P, int) -> int)

  /**
   * The contract the trip variants are meant to keep: a feasible earliest
   * departure is never before its lower bound, a feasible latest arrival
   * never after its upper bound. Used only as a hypothesis of lemmas.
   */
  ghost predicate HonoursBounds<P(!new)>(trip: FlexTrip<P>) {
    && (forall lb, f, t, d :: trip.earliestDepartureTime(lb, f, t, d) != Infeasible ==>
          trip.earliestDepartureTime(lb, f, t, d) >= lb)
    && (forall ub, f, t, d :: trip.latestArrivalTime(ub, f, t, d) != Infeasible ==>
          trip.latestArrivalTime(ub, f, t, d) <= ub)
  }
}
