/**
 * The turn-by-turn navigation session: a route, the walker's last known
 * position and the index of the stop being walked to. Every change of state
 * sends a snapshot to the registered callback; the model records the
 * snapshots sent in `emitted`. The geolocation watch and the three-second
 * arrival timer are explicit steps: `PositionUpdate` is the watch firing and
 * `ArrivalTimerFires` is a pending timer running its body.
 */
module InAppNavigation {
  import opened Wrappers
  import opened JsNumber
  import opened Text
  import opened Geo
  import opened Types

  /** The walker is within this many metres of a stop. */
  const ArrivalDistance: int := 50

  /** Walking speed of the time estimate, in metres per minute (5 km/h). */
  const MetresPerMinute: real := 83.0

  datatype NavigationState = NavigationState(
    isNavigating: bool,
    currentStopIndex: int,
    nextStop: RouteStop,
    distanceToNext: int,
    timeToNext: int,
    direction: string,
    instruction: string,
    totalStops: int,
    completedStops: int,
    arrived: bool)

  /** One call of the update callback: which callback, with which snapshot. */
  datatype Emission = Emission(callback: int, state: NavigationState)

  const Directions: seq<string> :=
    ["Norte", "Noreste", "Este", "Sureste", "Sur", "Suroeste", "Oeste", "Noroeste"]

  /** The 45-degree sector centred on direction k, the northern one wrapping round 0. */
  predicate InSector(bearing: real, k: int) {
    if k == 0 then bearing < 22.5 || bearing >= 337.5
    else 45.0 * k as real - 22.5 <= bearing < 45.0 * k as real + 22.5
  }

  /** bearingToDirection: the name of the sector the bearing falls in. */
  function BearingToDirection(bearing: real): (r: string)
    requires 0.0 <= bearing < 360.0
    ensures forall k :: 0 <= k < 8 ==> (r == Directions[k] <==> InSector(bearing, k))
  {
    var j := Round(bearing / 45.0);
    assert 0 <= j <= 8;
    assert j as real - 0.5 <= bearing / 45.0 < j as real + 0.5;
    assert 45.0 * j as real - 22.5 <= bearing < 45.0 * j as real + 22.5;
    Directions[j % 8]
  }

  /** The snapshot updateState sends for the walker at `position` heading to stop `index`. */
  function Snapshot(route: seq<RouteStop>, position: Coord, index: int, dist: Distance, bearing: Bearing): (s: NavigationState)
    requires 0 <= index < |route|
    ensures s.isNavigating && s.nextStop == route[index]
    ensures s.currentStopIndex == index && s.completedStops == index && s.totalStops == |route|
    ensures var km := dist(position, route[index].falla.Position());
      s.distanceToNext == Round(km * 1000.0) && s.timeToNext == Ceil(km * 1000.0 / MetresPerMinute)
    ensures s.direction == BearingToDirection(bearing(position, route[index].falla.Position()))
    ensures s.arrived <==> s.distanceToNext < ArrivalDistance
    ensures s.arrived ==> s.instruction == "¡Llegaste! " + route[index].falla.name
    ensures !s.arrived ==> s.instruction == "Camina " + IntToString(s.distanceToNext) + "m hacia el " + s.direction
    ensures s.distanceToNext >= 0 && s.timeToNext >= 0
  {
    var stop := route[index];
    var distance := dist(position, stop.falla.Position());
    var direction := BearingToDirection(bearing(position, stop.falla.Position()));
    var distanceMeters := Round(distance * 1000.0);
    var timeMinutes := Ceil(distance * 1000.0 / MetresPerMinute);
    var instruction := if distanceMeters < ArrivalDistance then "¡Llegaste! " + stop.falla.name
      else "Camina " + IntToString(distanceMeters) + "m hacia el " + direction;
    NavigationState(true, index, stop, distanceMeters, timeMinutes, direction, instruction,
      |route|, index, distanceMeters < ArrivalDistance)
  }

  /** Standing on the stop counts as arrived, with no time left. */
  lemma {:induction false} ArrivedAtTheStop(route: seq<RouteStop>, index: int, dist: Distance, bearing: Bearing)
    requires 0 <= index < |route|
    ensures var s := Snapshot(route, route[index].falla.Position(), index, dist, bearing);
      s.arrived && s.distanceToNext == 0 && s.timeToNext == 0
  {
  }

  /** The snapshot reports arrival exactly below 49.5 unrounded metres. */
  lemma {:induction false} SnapshotArrivedThreshold(route: seq<RouteStop>, position: Coord, index: int, dist: Distance, bearing: Bearing)
    requires 0 <= index < |route|
    ensures Snapshot(route, position, index, dist, bearing).arrived
        <==> dist(position, route[index].falla.Position()) * 1000.0 < 49.5
  {
  }

  /**
   * The arrival timer tests unrounded metres, the snapshot rounded ones:
   * every reported arrival arms the timer, but at 49.6 m the timer is armed
   * while the snapshot still says "Camina 50m".
   */
  lemma {:induction false} ArrivalTestsDisagree(km: real)
    ensures Round(km * 1000.0) < ArrivalDistance ==> km * 1000.0 < ArrivalDistance as real
    ensures km == 0.0496 ==> km * 1000.0 < ArrivalDistance as real && Round(km * 1000.0) == ArrivalDistance
  {
  }

  class InAppNavigationService {
    var route: seq<RouteStop>
    var currentPosition: Option<Coord>
    var currentStopIndex: int
    var watchId: Option<int>
    var updateCallback: Option<int>
    /** The snapshots sent so far, oldest first. */
    var emitted: seq<Emission>
    /** Watches registered with the geolocation API and not yet cleared. */
    var activeWatches: set<int>
    /** The identifier the next watchPosition call returns. */
    var nextWatchId: int
    /** Arrival timers set and not yet fired. */
    var pendingTimers: nat
    const geolocationAvailable: bool
    const dist: Distance
    const bearing: Bearing

    /** The index stays on the route; a stored watch is a registered one. */
    ghost predicate Valid()
      reads this
    {
      && 0 <= currentStopIndex
      && (currentStopIndex < |route| || (route == [] && currentStopIndex == 0))
      && (watchId.Some? ==> watchId.value in activeWatches)
      && (forall w :: w in activeWatches ==> w < nextWatchId)
    }

    constructor(geolocationAvailable: bool, dist: Distance, bearing: Bearing)
      ensures Valid()
      ensures route == [] && currentPosition == None && currentStopIndex == 0
      ensures watchId == None && updateCallback == None
      ensures emitted == [] && activeWatches == {} && pendingTimers == 0
      ensures this.geolocationAvailable == geolocationAvailable
      ensures this.dist == dist && this.bearing == bearing
    {
      route := [];
      currentPosition := None;
      currentStopIndex := 0;
      watchId := None;
      updateCallback := None;
      emitted := [];
      activeWatches := {};
      nextWatchId := 1;
      pendingTimers := 0;
      this.geolocationAvailable := geolocationAvailable;
      this.dist := dist;
      this.bearing := bearing;
    }

    /** The snapshot updateState would send now, if it sends one. */
    function CurrentSnapshot(): (r: Option<NavigationState>)
      reads this
      ensures r.Some? <==> currentPosition.Some? && 0 <= currentStopIndex < |route|
    {
      if currentPosition.Some? && 0 <= currentStopIndex < |route| then
        Some(Snapshot(route, currentPosition.value, currentStopIndex, dist, bearing))
      else None
    }

    /** What updateState sends: one snapshot if there is a position, a stop and a callback. */
    function Emitted(): seq<Emission>
      reads this
    {
      if updateCallback.Some? && CurrentSnapshot().Some? then
        [Emission(updateCallback.value, CurrentSnapshot().value)]
      else []
    }

    /** updateState */
    method UpdateState()
      modifies this
      requires Valid()
      ensures emitted == old(emitted) + old(Emitted())
      ensures route == old(route) && currentPosition == old(currentPosition)
      ensures currentStopIndex == old(currentStopIndex) && watchId == old(watchId)
      ensures updateCallback == old(updateCallback) && activeWatches == old(activeWatches)
      ensures nextWatchId == old(nextWatchId) && pendingTimers == old(pendingTimers)
    {
      if currentPosition.None? || currentStopIndex >= |route| {
        return;
      }
      var state := Snapshot(route, currentPosition.value, currentStopIndex, dist, bearing);
      if updateCallback.Some? {
        emitted := emitted + [Emission(updateCallback.value, state)];
      }
    }

    /** startLocationTracking: registers a watch when the browser offers geolocation. */
    method StartLocationTracking()
      modifies this
      requires Valid()
      ensures Valid()
      ensures geolocationAvailable ==> (watchId == Some(old(nextWatchId))
        && activeWatches == old(activeWatches) + {old(nextWatchId)} && nextWatchId == old(nextWatchId) + 1)
      ensures !geolocationAvailable ==> (watchId == old(watchId)
        && activeWatches == old(activeWatches) && nextWatchId == old(nextWatchId))
      ensures route == old(route) && currentPosition == old(currentPosition)
      ensures currentStopIndex == old(currentStopIndex) && updateCallback == old(updateCallback)
      ensures emitted == old(emitted) && pendingTimers == old(pendingTimers)
    {
      if !geolocationAvailable {
        return;
      }
      watchId := Some(nextWatchId);
      activeWatches := activeWatches + {nextWatchId};
      nextWatchId := nextWatchId + 1;
    }

    /**
     * startNavigation. An empty route changes nothing. Otherwise the session
     * restarts at the first stop and sends one snapshot; a watch left by an
     * earlier session is not cleared and keeps firing.
     */
    method StartNavigation(newRoute: seq<RouteStop>, userLocation: Coord, onUpdate: int)
      modifies this
      requires Valid()
      ensures Valid()
      ensures |newRoute| == 0 ==> (route == old(route) && currentPosition == old(currentPosition)
        && currentStopIndex == old(currentStopIndex) && watchId == old(watchId)
        && updateCallback == old(updateCallback) && emitted == old(emitted)
        && activeWatches == old(activeWatches) && nextWatchId == old(nextWatchId))
      ensures |newRoute| > 0 ==> (route == newRoute && currentPosition == Some(userLocation)
        && currentStopIndex == 0 && updateCallback == Some(onUpdate)
        && emitted == old(emitted) + [Emission(onUpdate, Snapshot(newRoute, userLocation, 0, dist, bearing))])
      ensures |newRoute| > 0 && geolocationAvailable ==> (watchId == Some(old(nextWatchId))
        && activeWatches == old(activeWatches) + {old(nextWatchId)})
      ensures |newRoute| > 0 && !geolocationAvailable ==> (watchId == old(watchId)
        && activeWatches == old(activeWatches))
      ensures |newRoute| > 0 ==> nextWatchId == old(nextWatchId) + (if geolocationAvailable then 1 else 0)
      ensures pendingTimers == old(pendingTimers)
    {
      if |newRoute| == 0 {
        return;
      }
      route := newRoute;
      currentPosition := Some(userLocation);
      currentStopIndex := 0;
      updateCallback := Some(onUpdate);
      StartLocationTracking();
      UpdateState();
    }

    /** stopNavigation: clears the watch and forgets route and callback; the position stays. */
    method StopNavigation()
      modifies this
      requires Valid()
      ensures Valid()
      ensures route == [] && currentStopIndex == 0 && updateCallback == None && watchId == None
      ensures old(watchId).Some? ==> activeWatches == old(activeWatches) - {old(watchId).value}
      ensures old(watchId).None? ==> activeWatches == old(activeWatches)
      ensures currentPosition == old(currentPosition) && emitted == old(emitted)
      ensures nextWatchId == old(nextWatchId) && pendingTimers == old(pendingTimers)
    {
      if watchId.Some? {
        activeWatches := activeWatches - {watchId.value};
        watchId := None;
      }
      route := [];
      currentStopIndex := 0;
      updateCallback := None;
    }

    /** nextStop: skips to the following stop, never past the last one. */
    method NextStop()
      modifies this
      requires Valid()
      ensures Valid()
      ensures old(currentStopIndex) < |route| - 1 ==> (currentStopIndex == old(currentStopIndex) + 1
        && emitted == old(emitted) + Emitted())
      ensures old(currentStopIndex) >= |route| - 1 ==> (currentStopIndex == old(currentStopIndex)
        && emitted == old(emitted))
      ensures route == old(route) && currentPosition == old(currentPosition) && watchId == old(watchId)
      ensures updateCallback == old(updateCallback) && activeWatches == old(activeWatches)
      ensures nextWatchId == old(nextWatchId) && pendingTimers == old(pendingTimers)
    {
      if currentStopIndex < |route| - 1 {
        currentStopIndex := currentStopIndex + 1;
        UpdateState();
      }
    }

    /** The walker is under 50 unrounded metres from the stop being walked to. */
    predicate WithinArrivalRange()
      reads this
    {
      currentPosition.Some? && 0 <= currentStopIndex < |route| &&
      dist(currentPosition.value, route[currentStopIndex].falla.Position()) * 1000.0 < ArrivalDistance as real
    }

    /** checkArrival: arms one timer when the walker is under 50 unrounded metres from the stop. */
    method CheckArrival()
      modifies this
      requires Valid()
      ensures pendingTimers == old(pendingTimers) + (if old(WithinArrivalRange()) then 1 else 0)
      ensures route == old(route) && currentPosition == old(currentPosition)
      ensures currentStopIndex == old(currentStopIndex) && watchId == old(watchId)
      ensures updateCallback == old(updateCallback) && activeWatches == old(activeWatches)
      ensures nextWatchId == old(nextWatchId) && emitted == old(emitted)
    {
      if currentPosition.None? || currentStopIndex >= |route| {
        return;
      }
      var distanceMeters := dist(currentPosition.value, route[currentStopIndex].falla.Position()) * 1000.0;
      if distanceMeters < ArrivalDistance as real {
        pendingTimers := pendingTimers + 1;
      }
    }

    /** The watch callback: a new position, a snapshot, then the arrival check. */
    method PositionUpdate(watch: int, position: Coord)
      modifies this
      requires Valid() && watch in activeWatches
      ensures Valid()
      ensures currentPosition == Some(position)
      ensures route == old(route) && currentStopIndex == old(currentStopIndex)
      ensures watchId == old(watchId) && updateCallback == old(updateCallback)
      ensures activeWatches == old(activeWatches) && nextWatchId == old(nextWatchId)
      ensures emitted == old(emitted) + Emitted()
      ensures old(updateCallback).None? ==> emitted == old(emitted)
      ensures pendingTimers == old(pendingTimers) + (if WithinArrivalRange() then 1 else 0)
    {
      currentPosition := Some(position);
      UpdateState();
      CheckArrival();
    }

    /**
     * The body of an arrival timer: advance to the next stop, or end the
     * session when the walker has reached the last one. Nothing cancels a
     * pending timer, so one armed before a skip or a stop still runs.
     */
    method ArrivalTimerFires()
      modifies this
      requires Valid() && pendingTimers > 0
      ensures Valid()
      ensures pendingTimers == old(pendingTimers) - 1
      ensures old(currentStopIndex) < |old(route)| - 1 ==> (route == old(route)
        && currentStopIndex == old(currentStopIndex) + 1 && emitted == old(emitted) + Emitted()
        && updateCallback == old(updateCallback) && watchId == old(watchId) && activeWatches == old(activeWatches))
      ensures old(currentStopIndex) >= |old(route)| - 1 ==> (route == [] && currentStopIndex == 0
        && updateCallback == None && watchId == None && emitted == old(emitted)
        && (old(watchId).Some? ==> activeWatches == old(activeWatches) - {old(watchId).value})
        && (old(watchId).None? ==> activeWatches == old(activeWatches)))
      ensures currentPosition == old(currentPosition) && nextWatchId == old(nextWatchId)
    {
      pendingTimers := pendingTimers - 1;
      if currentStopIndex < |route| - 1 {
        currentStopIndex := currentStopIndex + 1;
        UpdateState();
      } else {
        StopNavigation();
      }
    }
  }
}
