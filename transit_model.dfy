/**
 * The OpenTripPlanner transit-model StopTime record, as the GTFS mapper fills
 * it and the flex-trip classification reads it.
 */
module TransitModel {
  import opened Common

  type TripId = int

  /** A mapped stop, location or location group, by identity. */
  type StopLocationId = int

  datatype StopTime = StopTime(
    trip: TripId,
    stop: Option<StopLocationId>,
    arrivalTime: int,
    departureTime: int,
    timepoint: int,
    stopSequence: int,
    stopHeadsign: string,
    routeShortName: string,
    pickupType: int,
    dropOffType: int,
    shapeDistTraveled: real,
    farePeriodId: string,
    flexWindowStart: int,
    flexWindowEnd: int,
    flexContinuousPickup: int,
    flexContinuousDropOff: int)
}
