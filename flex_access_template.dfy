/**
 * FlexAccessTemplate: builds the itinerary of a flex ride that starts where an
 * access walk ends (the template's accessEgress), either straight to an egress
 * walk (createDirectItinerary) or through a same-stop transfer to a second
 * flex ride (getTransferItinerary).
 *
 * Times are seconds. `startOfTime` is the epoch second of the search's start
 * of time; `departureTime` is the requested time in seconds after it (the
 * latest arrival for an arrive-by search, the earliest departure otherwise).
 */
module FlexAccessTemplate {
  import opened Common
  import opened FlexTrips
  import opened StreetGraph
  import opened ContinuousStopsFlexPathCalculator

  /** A nearby stop: the stop, the walk's final state and the walk's edges. */
  datatype NearbyStop = NearbyStop(stop: StopId, state: State, edges: seq<Edge>)

  /**
   * The template's fields: the access walk, the flex trip, the boarding and
   * alighting positions on it, the path calculator, and the offset of the
   * service date from the start of time (secondsFromStartOfTime).
   */
  datatype AccessTemplate<!P> = AccessTemplate(
    accessEgress: NearbyStop,
    trip: FlexTrip<P>,
    fromStopIndex: P,
    toStopIndex: P,
    calculator: Calculator<P>,
    secondsFromStartOfTime: int)

  /** The three parts of a door-to-door elapsed time, as getFlexTimes returns them. */
  datatype FlexTimes = FlexTimes(preFlexTime: int, flexTime: int, postFlexTime: int)

  /**
   * The egress template a transfer continues with (FlexEgressTemplate is not
   * part of this model): its walk, its own routeability check and its own
   * flex edge, all uninterpreted.
   */
  datatype EgressTemplate = EgressTemplate(
    accessEgress: NearbyStop,
    isRouteable: Vertex -> bool,
    getFlexEdge: (Vertex, StopId) -> Edge)

  datatype TransferType = MinTime | Guaranteed | OtherTransferType(code: int)

  datatype Transfer = Transfer(
    fromStop: StopId,
    toStop: StopId,
    transferType: TransferType,
    minTransferTimeSeconds: int)

  /**
   * An itinerary as the template hands it on: the epoch second its first leg
   * starts and how long it lasts. Only time-shifting changes it.
   */
  class Itinerary {
    var startTime: int
    const durationSeconds: int

    /** The itinerary of the path ending in `s`, in the path's own time frame. */
    constructor Generate(s: State)
      ensures startTime == s.timeSeconds - s.elapsedSeconds
      ensures durationSeconds == s.elapsedSeconds
    {
      startTime := s.timeSeconds - s.elapsedSeconds;
      durationSeconds := s.elapsedSeconds;
    }

    function EndTime(): int
      reads this
    {
      startTime + durationSeconds
    }

    /** timeShiftToStartAt: move every leg so that the itinerary starts at `time`. */
    method TimeShiftToStartAt(time: int)
      modifies this
      ensures startTime == time
      ensures EndTime() - startTime == old(EndTime() - startTime)
    {
      startTime := time;
    }
  }

  /**
   * isRouteable: a flex vertex is routeable unless it is where the access walk
   * ends, and then exactly when the calculator finds a path to it. A null
   * vertex is handed to the calculator like any other.
   */
  predicate IsRouteable<P>(t: AccessTemplate<P>, flexVertex: Vertex)
    ensures IsRouteable(t, flexVertex) ==> flexVertex != t.accessEgress.state.vertex
    ensures flexVertex == NullVertex ==>
      (IsRouteable(t, flexVertex) <==> t.calculator(t.accessEgress.state.vertex, flexVertex, t.fromStopIndex, t.toStopIndex).Some?)
  {
    if t.accessEgress.state.vertex == flexVertex then false
    else t.calculator(t.accessEgress.state.vertex, flexVertex, t.fromStopIndex, t.toStopIndex).Some?
  }

  /**
   * getFlexEdge: the flex ride from the end of the access walk to
   * `flexToVertex`, boarding at the access stop and alighting at `transferStop`.
   */
  function GetFlexEdge<P>(t: AccessTemplate<P>, flexToVertex: Vertex, transferStop: StopId): (e: Edge)
    ensures e == FlexTripEdge(t.accessEgress.state.vertex, flexToVertex, t.accessEgress.stop, transferStop)
  {
    FlexTripEdge(t.accessEgress.state.vertex, flexToVertex, t.accessEgress.stop, transferStop)
  }

  /**
   * getFlexTimes: the seconds walked before boarding, ridden, and walked after
   * alighting; together they are the final state's elapsed time.
   */
  function GetFlexTimes<P>(net: Network, t: AccessTemplate<P>, flexEdge: Edge, s: State): (r: FlexTimes)
    ensures r.preFlexTime == t.accessEgress.state.elapsedSeconds
    ensures r.flexTime == net.flexTimeInSeconds(flexEdge)
    ensures r.preFlexTime + r.flexTime + r.postFlexTime == s.elapsedSeconds
  {
    var preFlexTime := t.accessEgress.state.elapsedSeconds;
    var edgeTimeInSeconds := net.flexTimeInSeconds(flexEdge);
    FlexTimes(preFlexTime, edgeTimeInSeconds, s.elapsedSeconds - preFlexTime - edgeTimeInSeconds)
  }

  /** The bound the trip is queried with in an arrive-by search. */
  function LastStopArrivalTime<P>(t: AccessTemplate<P>, times: FlexTimes, departureTime: int): int {
    departureTime - times.postFlexTime - t.secondsFromStartOfTime
  }

  /** The bound the trip is queried with in a depart-at search. */
  function FirstStopDepartureTime<P>(t: AccessTemplate<P>, times: FlexTimes, departureTime: int): int {
    departureTime + times.preFlexTime - t.secondsFromStartOfTime
  }

  function LatestArrival<P>(t: AccessTemplate<P>, times: FlexTimes, departureTime: int): int {
    t.trip.latestArrivalTime(LastStopArrivalTime(t, times, departureTime),
                             t.fromStopIndex, t.toStopIndex, times.flexTime)
  }

  function EarliestDeparture<P>(t: AccessTemplate<P>, times: FlexTimes, departureTime: int): int {
    t.trip.earliestDepartureTime(FirstStopDepartureTime(t, times, departureTime),
                                 t.fromStopIndex, t.toStopIndex, times.flexTime)
  }

  /**
   * The time-shift of a direct itinerary (seconds after the start of time at
   * which it starts), or None when the trip is infeasible or the itinerary
   * would start after an arrive-by time or before a depart-at time. A kept
   * shift puts the rider at the trip exactly when the trip answered: alighting
   * at its latest arrival (arrive-by) or boarding at its earliest departure.
   */
  function DirectTimeShift<P>(t: AccessTemplate<P>, times: FlexTimes, arriveBy: bool, departureTime: int)
    : (r: Option<int>)
    ensures arriveBy && r.Some? ==>
      && LatestArrival(t, times, departureTime) != Infeasible
      && r.value + times.preFlexTime + times.flexTime
           == t.secondsFromStartOfTime + LatestArrival(t, times, departureTime)
      && r.value <= departureTime
    ensures !arriveBy && r.Some? ==>
      && EarliestDeparture(t, times, departureTime) != Infeasible
      && r.value + times.preFlexTime == t.secondsFromStartOfTime + EarliestDeparture(t, times, departureTime)
      && r.value >= departureTime
    ensures arriveBy && r.None? ==>
      || LatestArrival(t, times, departureTime) == Infeasible
      || t.secondsFromStartOfTime + LatestArrival(t, times, departureTime)
           - times.flexTime - times.preFlexTime > departureTime
    ensures !arriveBy && r.None? ==>
      || EarliestDeparture(t, times, departureTime) == Infeasible
      || t.secondsFromStartOfTime + EarliestDeparture(t, times, departureTime)
           - times.preFlexTime < departureTime
  {
    if arriveBy then
      var latestArrivalTime := LatestArrival(t, times, departureTime);
      if latestArrivalTime == Infeasible then None
      else
        // move the ride so that it ends exactly at the requested time
        var timeShift := t.secondsFromStartOfTime + latestArrivalTime - times.flexTime - times.preFlexTime;
        if timeShift > departureTime then None else Some(timeShift)
    else
      var earliestDepartureTime := EarliestDeparture(t, times, departureTime);
      if earliestDepartureTime == Infeasible then None
      else
        var timeShift := t.secondsFromStartOfTime + earliestDepartureTime - times.preFlexTime;
        if timeShift < departureTime then None else Some(timeShift)
  }

  /**
   * When the trip keeps its bounds, an arrive-by itinerary never ends after
   * the requested time.
   */
  lemma ArriveByNeverArrivesLate<P(!new)>(net: Network, t: AccessTemplate<P>, flexEdge: Edge, s: State,
                                          departureTime: int)
    requires HonoursBounds(t.trip)
    requires DirectTimeShift(t, GetFlexTimes(net, t, flexEdge, s), true, departureTime).Some?
    ensures DirectTimeShift(t, GetFlexTimes(net, t, flexEdge, s), true, departureTime).value
              + s.elapsedSeconds <= departureTime
  {
    var times := GetFlexTimes(net, t, flexEdge, s);
    var bound := LastStopArrivalTime(t, times, departureTime);
    assert t.trip.latestArrivalTime(bound, t.fromStopIndex, t.toStopIndex, times.flexTime) <= bound;
  }

  /**
   * When the trip keeps its bounds and no part of the journey takes negative
   * time, the arrive-by check on the shift never fires: only infeasibility
   * rejects.
   */
  lemma ArriveByRejectsOnlyInfeasible<P(!new)>(t: AccessTemplate<P>, times: FlexTimes, departureTime: int)
    requires HonoursBounds(t.trip)
    requires times.preFlexTime + times.flexTime + times.postFlexTime >= 0
    ensures DirectTimeShift(t, times, true, departureTime).None? <==>
      LatestArrival(t, times, departureTime) == Infeasible
  {
    var bound := LastStopArrivalTime(t, times, departureTime);
    assert t.trip.latestArrivalTime(bound, t.fromStopIndex, t.toStopIndex, times.flexTime) != Infeasible ==>
      t.trip.latestArrivalTime(bound, t.fromStopIndex, t.toStopIndex, times.flexTime) <= bound;
  }

  /**
   * When the trip keeps its bounds, the depart-at check on the shift never
   * fires: only infeasibility rejects.
   */
  lemma DepartAtRejectsOnlyInfeasible<P(!new)>(t: AccessTemplate<P>, times: FlexTimes, departureTime: int)
    requires HonoursBounds(t.trip)
    ensures DirectTimeShift(t, times, false, departureTime).None? <==>
      EarliestDeparture(t, times, departureTime) == Infeasible
  {
    var bound := FirstStopDepartureTime(t, times, departureTime);
    assert t.trip.earliestDepartureTime(bound, t.fromStopIndex, t.toStopIndex, times.flexTime) != Infeasible ==>
      t.trip.earliestDepartureTime(bound, t.fromStopIndex, t.toStopIndex, times.flexTime) >= bound;
  }

  /** With the continuous calculator, routeability is a strictly positive ride window. */
  lemma ContinuousRouteability(t: AccessTemplate<real>, flexVertex: Vertex)
    requires t.calculator == AsCalculator(t.trip)
    ensures IsRouteable(t, flexVertex) <==>
      && t.accessEgress.state.vertex != flexVertex
      && Departure(t.trip, t.fromStopIndex, t.toStopIndex) < Arrival(t.trip, t.fromStopIndex, t.toStopIndex)
  {
  }

  // ---------------------------------------------------------------------------
  // createDirectItinerary

  /** What a direct itinerary request decides: nothing, or a final state and a shift. */
  datatype DirectPlan = NoItinerary | Shifted(finalState: State, timeShift: int)

  /**
   * The decision createDirectItinerary takes, as a function of its inputs:
   * the flex ride goes to where the egress walk starts; an empty walk throws
   * (the first edge is read); an unrouteable vertex, a failed walk traversal or
   * a rejected time-shift give no itinerary. A failed flex traversal hands a
   * null state to the first walk edge, which throws.
   */
  function DirectPlanOf<P>(net: Network, t: AccessTemplate<P>, egress: NearbyStop, arriveBy: bool,
                           departureTime: int): Outcome<DirectPlan>
  {
    if egress.edges == [] then Thrown(IndexOutOfBounds)
    else
      var flexToVertex := egress.edges[0].fromVertex;
      if !IsRouteable(t, flexToVertex) then Returned(NoItinerary)
      else
        var flexEdge := GetFlexEdge(t, flexToVertex, egress.stop);
        match net.traverse(flexEdge, t.accessEgress.state)
        case None => Thrown(NullPointer)
        case Some(afterFlex) =>
          match TraverseAll(net, afterFlex, egress.edges)
          case None => Returned(NoItinerary)
          case Some(s) =>
            match DirectTimeShift(t, GetFlexTimes(net, t, flexEdge, s), arriveBy, departureTime)
            case None => Returned(NoItinerary)
            case Some(timeShift) => Returned(Shifted(s, timeShift))
  }

  /** A depart-at itinerary never starts before the requested time. */
  lemma DirectDepartAtNeverEarly<P>(net: Network, t: AccessTemplate<P>, egress: NearbyStop, departureTime: int)
    requires DirectPlanOf(net, t, egress, false, departureTime).Returned?
    requires DirectPlanOf(net, t, egress, false, departureTime).value.Shifted?
    ensures DirectPlanOf(net, t, egress, false, departureTime).value.timeShift >= departureTime
  {
  }

  /**
   * An arrive-by itinerary never ends after the requested time, provided the
   * trip keeps its bounds.
   */
  lemma DirectArriveByNeverLate<P(!new)>(net: Network, t: AccessTemplate<P>, egress: NearbyStop, departureTime: int)
    requires HonoursBounds(t.trip)
    requires DirectPlanOf(net, t, egress, true, departureTime).Returned?
    requires DirectPlanOf(net, t, egress, true, departureTime).value.Shifted?
    ensures var p := DirectPlanOf(net, t, egress, true, departureTime).value;
            p.timeShift + p.finalState.elapsedSeconds <= departureTime
  {
    var flexToVertex := egress.edges[0].fromVertex;
    var flexEdge := GetFlexEdge(t, flexToVertex, egress.stop);
    var afterFlex := net.traverse(flexEdge, t.accessEgress.state).value;
    var s := TraverseAll(net, afterFlex, egress.edges).value;
    ArriveByNeverArrivesLate(net, t, flexEdge, s, departureTime);
  }

  /** An unrouteable flex-to vertex gives no itinerary. */
  lemma DirectRejectsUnrouteable<P>(net: Network, t: AccessTemplate<P>, egress: NearbyStop, arriveBy: bool,
                                    departureTime: int)
    requires egress.edges != []
    requires !IsRouteable(t, egress.edges[0].fromVertex)
    ensures DirectPlanOf(net, t, egress, arriveBy, departureTime) == Returned(NoItinerary)
  {
  }

  /**
   * If the walk cannot be traversed beyond some edge, there is no itinerary,
   * whatever the later edges would do.
   */
  lemma DirectRejectsBrokenWalk<P>(net: Network, t: AccessTemplate<P>, egress: NearbyStop, arriveBy: bool,
                                   departureTime: int, k: nat)
    requires k <= |egress.edges| && egress.edges != []
    requires IsRouteable(t, egress.edges[0].fromVertex)
    requires net.traverse(GetFlexEdge(t, egress.edges[0].fromVertex, egress.stop), t.accessEgress.state).Some?
    requires TraverseAll(net,
      net.traverse(GetFlexEdge(t, egress.edges[0].fromVertex, egress.stop), t.accessEgress.state).value,
      egress.edges[..k]).None?
    ensures DirectPlanOf(net, t, egress, arriveBy, departureTime) == Returned(NoItinerary)
  {
    var afterFlex :=
      net.traverse(GetFlexEdge(t, egress.edges[0].fromVertex, egress.stop), t.accessEgress.state).value;
    if TraverseAll(net, afterFlex, egress.edges).Some? {
      TraverseAllPrefix(net, afterFlex, egress.edges, k);
    }
  }

  /**
   * createDirectItinerary: traverse the flex ride and the egress walk, then
   * shift the itinerary to start `timeShift` seconds after the start of time.
   * A null result is Returned(null).
   */
  method CreateDirectItinerary<P>(net: Network, t: AccessTemplate<P>, egress: NearbyStop, arriveBy: bool,
                                  departureTime: int, startOfTime: int)
    returns (r: Outcome<Itinerary?>)
    ensures var plan := DirectPlanOf(net, t, egress, arriveBy, departureTime);
      && (r.Thrown? <==> plan.Thrown?)
      && (r.Thrown? ==> r.exception == plan.exception)
      && (r.Returned? ==> (r.value == null <==> plan.value.NoItinerary?))
      && (r.Returned? && r.value != null ==>
            && fresh(r.value)
            && r.value.startTime == startOfTime + plan.value.timeShift
            && r.value.durationSeconds == plan.value.finalState.elapsedSeconds)
    ensures r.Returned? && r.value != null && !arriveBy ==>
      r.value.startTime >= startOfTime + departureTime
  {
    var egressEdges := egress.edges;
    if |egressEdges| == 0 {
      return Thrown(IndexOutOfBounds);
    }
    var flexToVertex := egressEdges[0].fromVertex;

    if !IsRouteable(t, flexToVertex) {
      return Returned(null);
    }

    var flexEdge := GetFlexEdge(t, flexToVertex, egress.stop);
    var state := net.traverse(flexEdge, t.accessEgress.state);
    if state.None? {
      // the first walk edge is handed a null state
      return Thrown(NullPointer);
    }
    ghost var afterFlex := state.value;

    for i := 0 to |egressEdges|
      invariant state.Some?
      invariant TraverseAll(net, afterFlex, egressEdges[..i]) == state
    {
      assert egressEdges[..i + 1] == egressEdges[..i] + [egressEdges[i]];
      TraverseAllAppend(net, afterFlex, egressEdges[..i], [egressEdges[i]]);
      state := net.traverse(egressEdges[i], state.value);
      if state.None? {
        TraverseAllFailsOnPrefix(net, afterFlex, egressEdges, i + 1);
        return Returned(null);
      }
    }
    assert egressEdges[..|egressEdges|] == egressEdges;

    var flexTimes := GetFlexTimes(net, t, flexEdge, state.value);
    var shift := DirectTimeShift(t, flexTimes, arriveBy, departureTime);
    if shift.None? {
      return Returned(null);
    }

    var itinerary := new Itinerary.Generate(state.value);
    itinerary.TimeShiftToStartAt(startOfTime + shift.value);
    return Returned(itinerary);
  }

  // ---------------------------------------------------------------------------
  // getTransferItinerary

  /** Map.get on the stop-to-vertex index: the stop's vertex, or null when it has none. */
  function VertexOf(stopVertexForStop: map<StopId, Vertex>, stop: StopId): (v: Vertex)
    ensures stop in stopVertexForStop ==> v == stopVertexForStop[stop]
    ensures stop !in stopVertexForStop ==> v == NullVertex
  {
    if stop in stopVertexForStop then stopVertexForStop[stop] else NullVertex
  }

  /**
   * A stop without a vertex gives the null vertex, which is never where the
   * access walk ends: it is routeable exactly when the calculator finds a path.
   */
  lemma NullVertexLeftToCalculator<P>(t: AccessTemplate<P>, stopVertexForStop: map<StopId, Vertex>, stop: StopId)
    requires stop !in stopVertexForStop
    ensures IsRouteable(t, VertexOf(stopVertexForStop, stop)) <==>
      t.calculator(t.accessEgress.state.vertex, NullVertex, t.fromStopIndex, t.toStopIndex).Some?
  {
  }

  /** The transfer kinds a flex-to-flex itinerary is built for. */
  predicate IsSupportedTransfer(transfer: Transfer) {
    transfer.transferType == MinTime || transfer.transferType == Guaranteed
  }

  /**
   * The edges a transfer itinerary traverses, in order: the first flex ride,
   * a wait of the minimum transfer time for a minimum-time transfer only, the
   * second flex ride, and the egress walk.
   */
  function TransferEdges<P>(t: AccessTemplate<P>, egressT: EgressTemplate, transfer: Transfer,
                            fromVertex: Vertex, toVertex: Vertex): (edges: seq<Edge>)
    ensures |edges| == (if transfer.transferType == MinTime then 3 else 2) + |egressT.accessEgress.edges|
    ensures edges[0] == GetFlexEdge(t, fromVertex, transfer.fromStop)
    ensures transfer.transferType == MinTime ==>
      edges[1] == FlexTransferEdge(fromVertex, toVertex, transfer.minTransferTimeSeconds)
    ensures edges[|edges| - |egressT.accessEgress.edges| - 1..]
      == [egressT.getFlexEdge(toVertex, transfer.toStop)] + egressT.accessEgress.edges
  {
    [GetFlexEdge(t, fromVertex, transfer.fromStop)]
      + (if transfer.transferType == MinTime
         then [FlexTransferEdge(fromVertex, toVertex, transfer.minTransferTimeSeconds)] else [])
      + [egressT.getFlexEdge(toVertex, transfer.toStop)]
      + egressT.accessEgress.edges
  }

  /** A wait edge is among the transfer edges exactly for a minimum-time transfer. */
  lemma WaitEdgeOnlyForMinTime<P>(t: AccessTemplate<P>, egressT: EgressTemplate, transfer: Transfer,
                                  fromVertex: Vertex, toVertex: Vertex)
    requires forall e :: e in egressT.accessEgress.edges ==> !e.FlexTransferEdge?
    requires !egressT.getFlexEdge(toVertex, transfer.toStop).FlexTransferEdge?
    ensures var edges := TransferEdges(t, egressT, transfer, fromVertex, toVertex);
      (exists i :: 0 <= i < |edges| && edges[i].FlexTransferEdge?) <==> transfer.transferType == MinTime
    ensures transfer.transferType == MinTime ==>
      TransferEdges(t, egressT, transfer, fromVertex, toVertex)[1]
        == FlexTransferEdge(fromVertex, toVertex, transfer.minTransferTimeSeconds)
  {
    var edges := TransferEdges(t, egressT, transfer, fromVertex, toVertex);
    var n := |egressT.accessEgress.edges|;
    var head := |edges| - n;
    forall i | head <= i < |edges|
      ensures !edges[i].FlexTransferEdge?
    {
      assert edges[i] == edges[head..][i - head];
      assert edges[i] in egressT.accessEgress.edges;
    }
    if transfer.transferType == MinTime {
      assert edges[1].FlexTransferEdge?;
    }
  }

  /**
   * The decision getTransferItinerary takes: no itinerary for a transfer
   * between two different stops, for an unsupported transfer type, or when
   * either side is not routeable; otherwise the final state of traversing the
   * transfer edges, without any time-shift. Nothing checks the traversals, so a
   * null state reaching a later traversal or the path throws.
   */
  function TransferPlanOf<P>(net: Network, t: AccessTemplate<P>, egressT: EgressTemplate, transfer: Transfer,
                             stopVertexForStop: map<StopId, Vertex>): Outcome<Option<State>>
  {
    if transfer.fromStop != transfer.toStop then Returned(None)
    else if !IsSupportedTransfer(transfer) then Returned(None)
    else
      var fromVertex := VertexOf(stopVertexForStop, transfer.fromStop);
      var toVertex := VertexOf(stopVertexForStop, transfer.toStop);
      if !IsRouteable(t, fromVertex) || !egressT.isRouteable(toVertex) then Returned(None)
      else match TraverseAll(net, t.accessEgress.state, TransferEdges(t, egressT, transfer, fromVertex, toVertex))
        case None => Thrown(NullPointer)
        case Some(s) => Returned(Some(s))
  }

  /** The three cases that give no transfer itinerary, and only they. */
  lemma TransferRejections<P>(net: Network, t: AccessTemplate<P>, egressT: EgressTemplate, transfer: Transfer,
                              stopVertexForStop: map<StopId, Vertex>)
    ensures TransferPlanOf(net, t, egressT, transfer, stopVertexForStop) == Returned(None) <==>
      || transfer.fromStop != transfer.toStop
      || !IsSupportedTransfer(transfer)
      || !IsRouteable(t, VertexOf(stopVertexForStop, transfer.fromStop))
      || !egressT.isRouteable(VertexOf(stopVertexForStop, transfer.toStop))
  {
  }

  /** The traversal that goes on from a state that may already be null. */
  function Continue(net: Network, state: Option<State>, edges: seq<Edge>): Option<State> {
    match state
    case None => None
    case Some(s) => TraverseAll(net, s, edges)
  }

  /**
   * getTransferItinerary. The itinerary is left in the traversal's own time
   * frame: no time-shift is applied. A null result is Returned(null).
   */
  method GetTransferItinerary<P>(net: Network, t: AccessTemplate<P>, transfer: Transfer,
                                 egressT: EgressTemplate, stopVertexForStop: map<StopId, Vertex>)
    returns (r: Outcome<Itinerary?>)
    ensures var plan := TransferPlanOf(net, t, egressT, transfer, stopVertexForStop);
      && (r.Thrown? <==> plan.Thrown?)
      && (r.Thrown? ==> r.exception == plan.exception)
      && (r.Returned? ==> (r.value == null <==> plan.value.None?))
      && (r.Returned? && r.value != null ==>
            && fresh(r.value)
            && r.value.startTime == plan.value.value.timeSeconds - plan.value.value.elapsedSeconds
            && r.value.durationSeconds == plan.value.value.elapsedSeconds)
  {
    if transfer.fromStop != transfer.toStop {
      // walking between legs is not handled
      return Returned(null);
    }

    var isMinTimeTransfer := transfer.transferType == MinTime;
    var isGuaranteedTransfer := transfer.transferType == Guaranteed;

    if !isMinTimeTransfer && !isGuaranteedTransfer {
      // other transfer types are not handled
      return Returned(null);
    }

    var transferFromVertex := VertexOf(stopVertexForStop, transfer.fromStop);
    var transferToVertex := VertexOf(stopVertexForStop, transfer.toStop);

    if !IsRouteable(t, transferFromVertex) || !egressT.isRouteable(transferToVertex) {
      return Returned(null);
    }

    var firstFlexEdge := GetFlexEdge(t, transferFromVertex, transfer.fromStop);
    var secondFlexEdge := egressT.getFlexEdge(transferToVertex, transfer.toStop);
    var egressEdges := egressT.accessEgress.edges;

    ghost var all := TransferEdges(t, egressT, transfer, transferFromVertex, transferToVertex);
    ghost var goal := TraverseAll(net, t.accessEgress.state, all);
    ghost var tail := [secondFlexEdge] + egressEdges;

    var state := net.traverse(firstFlexEdge, t.accessEgress.state);

    if isMinTimeTransfer {
      var legSwitchEdge := FlexTransferEdge(transferFromVertex, transferToVertex, transfer.minTransferTimeSeconds);
      assert all == [firstFlexEdge] + ([legSwitchEdge] + tail);
      assert all[1..] == [legSwitchEdge] + tail;
      assert Continue(net, state, [legSwitchEdge] + tail) == goal;
      if state.None? {
        return Thrown(NullPointer);
      }
      assert ([legSwitchEdge] + tail)[1..] == tail;
      state := net.traverse(legSwitchEdge, state.value);
    } else {
      assert all == [firstFlexEdge] + tail;
      assert all[1..] == tail;
    }
    assert Continue(net, state, tail) == goal;

    if state.None? {
      return Thrown(NullPointer);
    }
    assert tail[1..] == egressEdges[0..];
    state := net.traverse(secondFlexEdge, state.value);

    for i := 0 to |egressEdges|
      invariant Continue(net, state, egressEdges[i..]) == goal
    {
      if state.None? {
        return Thrown(NullPointer);
      }
      assert egressEdges[i..][1..] == egressEdges[i + 1..];
      state := net.traverse(egressEdges[i], state.value);
    }

    if state.None? {
      // new GraphPath(null, ...) dereferences the state
      return Thrown(NullPointer);
    }
    var itinerary := new Itinerary.Generate(state.value);
    return Returned(itinerary);
  }
}
