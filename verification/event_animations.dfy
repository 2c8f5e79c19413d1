/**
 * The map-event animation service: the layers it puts on the map for the
 * cabalgata, the ofrenda, the mascletà and the cremà, the lists it keeps of
 * them, and the deferred work it schedules. Leaflet layers and timer ids are
 * opaque integer handles; setTimeout callbacks are queued as `Timeout`
 * values that the caller runs with `RunTimeout`, and setInterval callbacks
 * are the `Tick` methods of the small classes at the end of the module.
 */
module EventAnimations {
  import opened Wrappers
  import opened Geo
  import opened Types

  /** The body of a setTimeout callback. */
  datatype Task =
    | SpawnDemon(route: seq<Coord>, offset: int)
    | SpawnExplosion(location: Coord)
    | SpawnBurningFalla(location: Coord)
    | SpawnProcession(start: Coord, destination: Coord)
    | RemoveLayer(layer: int)

  /** A scheduled callback and its delay in milliseconds. */
  datatype Timeout = Timeout(delay: int, task: Task)

  /** The cabalgata del fuego, from the Plaza del Ayuntamiento to the Porta de la Mar. */
  const CabalgataRoute: seq<Coord> := [
    Coord(39.4699, -0.3763), Coord(39.4705, -0.3755), Coord(39.4712, -0.3748),
    Coord(39.4720, -0.3740), Coord(39.4728, -0.3732)
  ]
  const VirgenLocation := Coord(39.4756, -0.3749)
  const MascletaLocation := Coord(39.4699, -0.3763)
  const ProcessionStarts: seq<Coord> := [
    Coord(39.4650, -0.3800), Coord(39.4680, -0.3720), Coord(39.4720, -0.3810)
  ]
  const FallaLocations: seq<Coord> := [
    Coord(39.4699, -0.3763), Coord(39.4742, -0.3753), Coord(39.4651, -0.3712),
    Coord(39.4805, -0.3695), Coord(39.4740, -0.3790)
  ]

  const OfrendaStartHour := 16
  const OfrendaEndHour := 23
  const DemonSpacing := 1500
  const ExplosionSpacing := 400
  const BurningSpacing := 2000
  const ProcessionSpacing := 2000
  const ExplosionLifetime := 1200
  const ProcessionSteps := 25

  const DemonTasks: seq<Task> := [
    SpawnDemon(CabalgataRoute, 0), SpawnDemon(CabalgataRoute, 1),
    SpawnDemon(CabalgataRoute, 2), SpawnDemon(CabalgataRoute, 3)
  ]
  const Explosion := SpawnExplosion(MascletaLocation)
  const ExplosionTasks: seq<Task> := [
    Explosion, Explosion, Explosion, Explosion, Explosion, Explosion,
    Explosion, Explosion, Explosion, Explosion, Explosion, Explosion
  ]
  const BurningTasks: seq<Task> := [
    SpawnBurningFalla(FallaLocations[0]), SpawnBurningFalla(FallaLocations[1]),
    SpawnBurningFalla(FallaLocations[2]), SpawnBurningFalla(FallaLocations[3]),
    SpawnBurningFalla(FallaLocations[4])
  ]
  const ProcessionTasks: seq<Task> := [
    SpawnProcession(ProcessionStarts[0], VirgenLocation), SpawnProcession(ProcessionStarts[1], VirgenLocation),
    SpawnProcession(ProcessionStarts[2], VirgenLocation)
  ]

  /** The first `n` tasks, the i-th delayed by i times `spacing`, as a loop of setTimeout calls makes them. */
  function Staggered(tasks: seq<Task>, spacing: int, n: nat): (r: seq<Timeout>)
    requires n <= |tasks|
    ensures |r| == n
    ensures forall i :: 0 <= i < n ==> r[i] == Timeout(i * spacing, tasks[i])
  {
    if n == 0 then [] else Staggered(tasks, spacing, n - 1) + [Timeout((n - 1) * spacing, tasks[n - 1])]
  }

  /** The cabalgata schedules 4 demons, 1.5 s apart, all on the cabalgata route. */
  lemma {:induction false} CabalgataSchedulesFourDemons()
    ensures |Staggered(DemonTasks, DemonSpacing, 4)| == 4
    ensures forall i :: 0 <= i < 4 ==>
      Staggered(DemonTasks, DemonSpacing, 4)[i] == Timeout(1500 * i, SpawnDemon(CabalgataRoute, i))
  {
  }

  /** The mascletà schedules 12 explosions, 0.4 s apart, at the Plaza del Ayuntamiento. */
  lemma {:induction false} MascletaSchedulesTwelveExplosions()
    ensures |Staggered(ExplosionTasks, ExplosionSpacing, 12)| == 12
    ensures forall i :: 0 <= i < 12 ==>
      Staggered(ExplosionTasks, ExplosionSpacing, 12)[i] == Timeout(400 * i, SpawnExplosion(MascletaLocation))
  {
  }

  /** The cremà schedules one burning falla per location, 2 s apart, in order. */
  lemma {:induction false} CremaSchedulesFiveFires()
    ensures |Staggered(BurningTasks, BurningSpacing, 5)| == 5
    ensures forall i :: 0 <= i < 5 ==>
      Staggered(BurningTasks, BurningSpacing, 5)[i] == Timeout(2000 * i, SpawnBurningFalla(FallaLocations[i]))
  {
  }

  /**
   * flowerProgress: the share of the ofrenda drawn at the virgin, from 0 at
   * 16h to 100 at 23h, and 100 afterwards.
   */
  function FlowerProgress(hour: int): (p: real)
    ensures 0.0 <= p <= 100.0
    ensures hour < OfrendaStartHour ==> p == 0.0
    ensures hour > OfrendaEndHour ==> p == 100.0
    ensures hour == OfrendaStartHour ==> p == 0.0
    ensures hour == OfrendaEndHour ==> p == 100.0
  {
    if OfrendaStartHour <= hour <= OfrendaEndHour then
      (hour - OfrendaStartHour) as real / (OfrendaEndHour - OfrendaStartHour) as real * 100.0
    else if hour > OfrendaEndHour then 100.0
    else 0.0
  }

  /** The progress never goes back as the hour advances. */
  lemma {:induction false} FlowerProgressMonotone(h1: int, h2: int)
    requires h1 <= h2
    ensures FlowerProgress(h1) <= FlowerProgress(h2)
  {
  }

  /** `options.hour || 16`: a missing hour and hour 0 both become 16. */
  function OfrendaHour(hour: Option<int>): (h: int)
    ensures h != 0
    ensures hour.Some? && hour.value != 0 ==> h == hour.value
    ensures (hour.None? || hour.value == 0) ==> h == OfrendaStartHour
  {
    match hour
    case Some(v) => if v == 0 then 16 else v
    case None => 16
  }

  /** The procession runs only within the ofrenda hours. */
  predicate ProcessionHour(hour: int) {
    OfrendaStartHour <= hour <= OfrendaEndHour
  }

  function Elems(s: seq<int>): set<int> {
    set x | x in s
  }

  /** `splice(indexOf(x), 1)`: drops the first occurrence of `x`, if any. */
  function RemoveFirst(s: seq<int>, x: int): (r: seq<int>)
    ensures x !in s ==> r == s
    ensures x in s ==> |r| == |s| - 1
    ensures multiset(r) == multiset(s) - multiset{x}
    ensures forall y :: y in r ==> y in s
  {
    if s == [] then []
    else
      assert s == [s[0]] + s[1..];
      if s[0] == x then s[1..]
      else [s[0]] + RemoveFirst(s[1..], x)
  }

  /** The layers `clearAnimations` leaves on the map: it removes the listed ones only when a map is set. */
  function AfterClear(onMap: set<int>, hasMap: bool, markers: seq<int>, polylines: seq<int>): set<int> {
    if hasMap then onMap - Elems(markers) - Elems(polylines) else onMap
  }

  /** The callbacks `triggerAnimation(kind, {hour})` schedules when a map is set. */
  function Scheduled(kind: AnimationType, hour: Option<int>): seq<Timeout> {
    if kind.Cabalgata? then Staggered(DemonTasks, DemonSpacing, 4)
    else if kind.Ofrenda? then
      (if ProcessionHour(OfrendaHour(hour)) then Staggered(ProcessionTasks, ProcessionSpacing, 3) else [])
    else if kind.Mascleta? then Staggered(ExplosionTasks, ExplosionSpacing, 12)
    else Staggered(BurningTasks, BurningSpacing, 5)
  }

  /**
   * The ofrenda schedules its three processions exactly for the hours 16 to
   * 23 and for a missing hour or hour 0, which both stand for 16.
   */
  lemma {:induction false} OfrendaProcessionHours(hour: Option<int>)
    ensures |Scheduled(Ofrenda, hour)| == 3 <==>
      (hour.None? || hour.value == 0 || 16 <= hour.value <= 23)
    ensures |Scheduled(Ofrenda, hour)| == 0 <==>
      !(hour.None? || hour.value == 0 || 16 <= hour.value <= 23)
  {
  }

  /** Every field the service updates, as one value. */
  datatype ServiceState = ServiceState(
    leafletMap: Option<int>, onMap: set<int>, activeMarkers: seq<int>, activePolylines: seq<int>,
    animationIntervals: seq<int>, runningIntervals: set<int>, pendingTimeouts: seq<Timeout>,
    nextHandle: int, virgenProgress: Option<real>)

  /**
   * Every handle the state holds was handed out before: the layers on the
   * map, the listed markers, polylines and intervals, the running
   * intervals, and the layers a pending timeout will remove are all below
   * `nextHandle`.
   */
  predicate HandlesIssued(s: ServiceState) {
    && (forall h :: h in s.onMap ==> h < s.nextHandle)
    && (forall h :: h in s.activeMarkers ==> h < s.nextHandle)
    && (forall h :: h in s.activePolylines ==> h < s.nextHandle)
    && (forall h :: h in s.animationIntervals ==> h < s.nextHandle)
    && (forall h :: h in s.runningIntervals ==> h < s.nextHandle)
    && (forall k :: 0 <= k < |s.pendingTimeouts| && s.pendingTimeouts[k].task.RemoveLayer? ==>
          s.pendingTimeouts[k].task.layer < s.nextHandle)
  }

  /** No task of the first `n` removes a layer: the task lists the animations schedule. */
  predicate NoRemoval(tasks: seq<Task>, n: nat)
    requires n <= |tasks|
  {
    forall i :: 0 <= i < n ==> !tasks[i].RemoveLayer?
  }

  /** The state `clearAnimations` leaves. */
  function Cleared(s: ServiceState): ServiceState {
    s.(activeMarkers := [], activePolylines := [], animationIntervals := [],
       onMap := AfterClear(s.onMap, s.leafletMap.Some?, s.activeMarkers, s.activePolylines),
       runningIntervals := s.runningIntervals - Elems(s.animationIntervals))
  }

  /** The state `animateCabalgataDelFuego` leaves: the route is the one polyline, and four demons are queued. */
  function CabalgataDrawn(s: ServiceState): ServiceState {
    if s.leafletMap.None? then s
    else
      var c := Cleared(s);
      c.(onMap := c.onMap + {s.nextHandle}, activePolylines := [s.nextHandle],
         pendingTimeouts := s.pendingTimeouts + Staggered(DemonTasks, DemonSpacing, 4),
         nextHandle := s.nextHandle + 1)
  }

  /** The state `animateOfrendaFlores(hour)` leaves: the virgin is the one marker, with the hour's progress. */
  function OfrendaDrawn(s: ServiceState, hour: int): ServiceState {
    if s.leafletMap.None? then s
    else
      var c := Cleared(s);
      c.(onMap := c.onMap + {s.nextHandle}, activeMarkers := [s.nextHandle],
         virgenProgress := Some(FlowerProgress(hour)),
         pendingTimeouts := s.pendingTimeouts
           + (if ProcessionHour(hour) then Staggered(ProcessionTasks, ProcessionSpacing, 3) else []),
         nextHandle := s.nextHandle + 1)
  }

  /** The state `animateMascleta` leaves: cleared, with twelve explosions queued. */
  function MascletaDrawn(s: ServiceState): ServiceState {
    if s.leafletMap.None? then s
    else Cleared(s).(pendingTimeouts := s.pendingTimeouts + Staggered(ExplosionTasks, ExplosionSpacing, 12))
  }

  /** The state `animateCrema` leaves: cleared, with five fires queued. */
  function CremaDrawn(s: ServiceState): ServiceState {
    if s.leafletMap.None? then s
    else Cleared(s).(pendingTimeouts := s.pendingTimeouts + Staggered(BurningTasks, BurningSpacing, 5))
  }

  /** The state `triggerAnimation(kind, {hour})` leaves. */
  function Triggered(s: ServiceState, kind: AnimationType, hour: Option<int>): ServiceState {
    match kind
    case Cabalgata => CabalgataDrawn(s)
    case Ofrenda => OfrendaDrawn(s, OfrendaHour(hour))
    case Mascleta => MascletaDrawn(s)
    case Crema => CremaDrawn(s)
  }

  /** A marker drawn and listed under a fresh handle. */
  function WithMarker(s: ServiceState): ServiceState {
    s.(onMap := s.onMap + {s.nextHandle}, activeMarkers := s.activeMarkers + [s.nextHandle],
       nextHandle := s.nextHandle + 1)
  }

  /** An interval set and listed under a fresh handle. */
  function WithInterval(s: ServiceState): ServiceState {
    s.(runningIntervals := s.runningIntervals + {s.nextHandle},
       animationIntervals := s.animationIntervals + [s.nextHandle], nextHandle := s.nextHandle + 1)
  }

  /** The state once the k-th queued callback has left the queue and done its work. */
  function Fired(s: ServiceState, k: nat): ServiceState
    requires k < |s.pendingTimeouts|
  {
    var q := s.(pendingTimeouts := s.pendingTimeouts[..k] + s.pendingTimeouts[k + 1..]);
    if s.leafletMap.None? then q
    else
      match s.pendingTimeouts[k].task
      case SpawnDemon(_, _) => WithInterval(WithMarker(q))
      case SpawnProcession(_, _) => WithInterval(WithMarker(q))
      case SpawnExplosion(_) =>
        q.(onMap := q.onMap + {q.nextHandle},
           pendingTimeouts := q.pendingTimeouts + [Timeout(ExplosionLifetime, RemoveLayer(q.nextHandle))],
           nextHandle := q.nextHandle + 1)
      case SpawnBurningFalla(_) => WithMarker(q)
      case RemoveLayer(layer) => q.(onMap := q.onMap - {layer})
  }

  /** Clearing twice is clearing once. */
  lemma {:induction false} ClearedIdempotent(s: ServiceState)
    ensures Cleared(Cleared(s)) == Cleared(s)
  {
    assert Elems([]) == {};
  }

  /** Clearing keeps every held handle issued: it only drops handles. */
  lemma {:induction false} ClearedKeepsHandles(s: ServiceState)
    requires HandlesIssued(s)
    ensures HandlesIssued(Cleared(s))
    ensures Cleared(s).onMap <= s.onMap && Cleared(s).runningIntervals <= s.runningIntervals
  {
  }

  /** A new marker or interval keeps every held handle issued. */
  lemma {:induction false} WithMarkerKeepsHandles(s: ServiceState)
    requires HandlesIssued(s)
    ensures HandlesIssued(WithMarker(s)) && HandlesIssued(WithInterval(s))
    ensures HandlesIssued(WithInterval(WithMarker(s)))
  {
  }

  /**
   * Triggering an animation keeps every held handle issued, never hands a
   * handle out twice, queues exactly `Scheduled(kind, hour)`, and takes
   * every previously listed marker and polyline off the map.
   */
  lemma {:induction false} TriggeredKeepsHandles(s: ServiceState, kind: AnimationType, hour: Option<int>)
    requires HandlesIssued(s)
    ensures HandlesIssued(Triggered(s, kind, hour))
    ensures Triggered(s, kind, hour).nextHandle >= s.nextHandle
    ensures s.leafletMap.Some? ==> Triggered(s, kind, hour).pendingTimeouts == s.pendingTimeouts + Scheduled(kind, hour)
    ensures s.leafletMap.Some? ==> forall h :: h in s.activeMarkers || h in s.activePolylines ==>
      h !in Triggered(s, kind, hour).onMap
  {
    var r := Triggered(s, kind, hour);
    if s.leafletMap.Some? {
      var added := Scheduled(kind, hour);
      assert r.pendingTimeouts == s.pendingTimeouts + added;
      assert NoRemoval(DemonTasks, 4) && NoRemoval(ProcessionTasks, 3);
      assert NoRemoval(ExplosionTasks, 12) && NoRemoval(BurningTasks, 5);
      forall h | h in s.activeMarkers || h in s.activePolylines
        ensures h !in r.onMap
      {
        assert h in Elems(s.activeMarkers) || h in Elems(s.activePolylines);
      }
    }
  }

  /** Running a queued callback keeps every held handle issued and never hands a handle out twice. */
  lemma {:induction false} FiredKeepsHandles(s: ServiceState, k: nat)
    requires HandlesIssued(s) && k < |s.pendingTimeouts|
    ensures HandlesIssued(Fired(s, k))
    ensures Fired(s, k).nextHandle >= s.nextHandle
    ensures |Fired(s, k).pendingTimeouts| <= |s.pendingTimeouts|
  {
    var q := s.pendingTimeouts[..k] + s.pendingTimeouts[k + 1..];
    forall j | 0 <= j < |q|
      ensures q[j] == s.pendingTimeouts[if j < k then j else j + 1]
    {
    }
  }

  class EventAnimationService {
    var leafletMap: Option<int>
    /** The layers currently drawn on the map. */
    var onMap: set<int>
    var activeMarkers: seq<int>
    var activePolylines: seq<int>
    var animationIntervals: seq<int>
    /** The intervals not yet cleared. */
    var runningIntervals: set<int>
    /** Scheduled setTimeout callbacks, in scheduling order. */
    var pendingTimeouts: seq<Timeout>
    /** The next layer or timer handle to hand out. */
    var nextHandle: int
    /** The progress drawn by the last virgin marker, if one was drawn. */
    var virgenProgress: Option<real>

    function State(): ServiceState
      reads this
    {
      ServiceState(leafletMap, onMap, activeMarkers, activePolylines, animationIntervals,
                   runningIntervals, pendingTimeouts, nextHandle, virgenProgress)
    }

    ghost predicate Valid()
      reads this
    {
      HandlesIssued(State())
    }

    constructor()
      ensures State() == ServiceState(None, {}, [], [], [], {}, [], 0, None)
      ensures Valid()
    {
      leafletMap := None;
      onMap := {};
      activeMarkers := [];
      activePolylines := [];
      animationIntervals := [];
      runningIntervals := {};
      pendingTimeouts := [];
      nextHandle := 0;
      virgenProgress := None;
    }

    method SetMap(m: int)
      requires Valid()
      modifies this
      ensures Valid()
      ensures State() == old(State()).(leafletMap := Some(m))
    {
      leafletMap := Some(m);
    }

    /** A fresh handle for a new layer or timer: none of the held handles. */
    method NewHandle() returns (h: int)
      requires Valid()
      modifies this
      ensures Valid()
      ensures h == old(nextHandle) && State() == old(State()).(nextHandle := h + 1)
      ensures h !in old(onMap) && h !in old(activeMarkers) && h !in old(activePolylines)
      ensures h !in old(animationIntervals) && h !in old(runningIntervals)
    {
      h := nextHandle;
      nextHandle := nextHandle + 1;
    }

    /**
     * clearAnimations: empties the three lists, takes their layers off the
     * map when there is one, and clears the intervals. Pending timeouts are
     * not cancelled, and layers that were never listed stay on the map.
     */
    method ClearAnimations()
      requires Valid()
      modifies this
      ensures Valid()
      ensures State() == Cleared(old(State()))
    {
      ClearedKeepsHandles(State());
      RemoveMarkers();
      RemovePolylines();
      ClearIntervals();
    }

    /** The markers' pass of clearAnimations: each listed marker leaves the map, then the list is emptied. */
    method RemoveMarkers()
      modifies this
      ensures State() == old(State()).(activeMarkers := [],
        onMap := if leafletMap.Some? then old(onMap) - Elems(old(activeMarkers)) else old(onMap))
    {
      var i := 0;
      assert activeMarkers[..0] == [] && Elems([]) == {};
      while i < |activeMarkers|
        invariant 0 <= i <= |activeMarkers|
        invariant State() == old(State()).(
          onMap := if leafletMap.Some? then old(onMap) - Elems(activeMarkers[..i]) else old(onMap))
      {
        if leafletMap.Some? {
          assert Elems(activeMarkers[..i + 1]) == Elems(activeMarkers[..i]) + {activeMarkers[i]} by {
            assert activeMarkers[..i + 1] == activeMarkers[..i] + [activeMarkers[i]];
          }
          onMap := onMap - {activeMarkers[i]};
        }
        i := i + 1;
      }
      assert activeMarkers[..i] == activeMarkers;
      activeMarkers := [];
    }

    /** The polylines' pass of clearAnimations: each listed polyline leaves the map, then the list is emptied. */
    method RemovePolylines()
      modifies this
      ensures State() == old(State()).(activePolylines := [],
        onMap := if leafletMap.Some? then old(onMap) - Elems(old(activePolylines)) else old(onMap))
    {
      var i := 0;
      assert activePolylines[..0] == [] && Elems([]) == {};
      while i < |activePolylines|
        invariant 0 <= i <= |activePolylines|
        invariant State() == old(State()).(
          onMap := if leafletMap.Some? then old(onMap) - Elems(activePolylines[..i]) else old(onMap))
      {
        if leafletMap.Some? {
          assert Elems(activePolylines[..i + 1]) == Elems(activePolylines[..i]) + {activePolylines[i]} by {
            assert activePolylines[..i + 1] == activePolylines[..i] + [activePolylines[i]];
          }
          onMap := onMap - {activePolylines[i]};
        }
        i := i + 1;
      }
      assert activePolylines[..i] == activePolylines;
      activePolylines := [];
    }

    /** The intervals' pass of clearAnimations: each listed interval is cleared, then the list is emptied. */
    method ClearIntervals()
      modifies this
      ensures State() == old(State()).(animationIntervals := [],
        runningIntervals := old(runningIntervals) - Elems(old(animationIntervals)))
    {
      var i := 0;
      assert animationIntervals[..0] == [] && Elems([]) == {};
      while i < |animationIntervals|
        invariant 0 <= i <= |animationIntervals|
        invariant State() == old(State()).(runningIntervals := old(runningIntervals) - Elems(animationIntervals[..i]))
      {
        assert Elems(animationIntervals[..i + 1]) == Elems(animationIntervals[..i]) + {animationIntervals[i]} by {
          assert animationIntervals[..i + 1] == animationIntervals[..i] + [animationIntervals[i]];
        }
        runningIntervals := runningIntervals - {animationIntervals[i]};
        i := i + 1;
      }
      assert animationIntervals[..i] == animationIntervals;
      animationIntervals := [];
    }

    /** Appends `Staggered(tasks, spacing, n)` to the pending timeouts, one setTimeout call per turn. */
    method Schedule(tasks: seq<Task>, spacing: int, n: nat)
      requires Valid() && n <= |tasks| && NoRemoval(tasks, n)
      modifies this
      ensures Valid()
      ensures State() == old(State()).(pendingTimeouts := old(pendingTimeouts) + Staggered(tasks, spacing, n))
    {
      for i := 0 to n
        invariant State() == old(State()).(pendingTimeouts := old(pendingTimeouts) + Staggered(tasks, spacing, i))
        invariant Valid()
      {
        pendingTimeouts := pendingTimeouts + [Timeout(i * spacing, tasks[i])];
      }
    }

    /**
     * animateCabalgataDelFuego: without a map nothing happens; otherwise the
     * previous animations are cleared, the route is drawn as the only
     * polyline, and four demons are scheduled.
     */
    method AnimateCabalgataDelFuego()
      requires Valid()
      modifies this
      ensures Valid()
      ensures State() == CabalgataDrawn(old(State()))
    {
      if leafletMap.None? {
        return;
      }
      ClearAnimations();
      var line := NewHandle();
      onMap := onMap + {line};
      activePolylines := activePolylines + [line];
      Schedule(DemonTasks, DemonSpacing, 4);
    }

    /** createMovingFireDemon: a marker and its interval, both listed; nothing without a map. */
    method CreateMovingFireDemon(route: seq<Coord>)
      requires Valid()
      modifies this
      ensures Valid()
      ensures State() == if old(leafletMap).None? then old(State()) else WithInterval(WithMarker(old(State())))
    {
      if leafletMap.None? {
        return;
      }
      var marker := NewHandle();
      onMap := onMap + {marker};
      activeMarkers := activeMarkers + [marker];
      var interval := NewHandle();
      runningIntervals := runningIntervals + {interval};
      animationIntervals := animationIntervals + [interval];
    }

    /**
     * animateOfrendaFlores: without a map nothing happens; otherwise the
     * previous animations are cleared, the virgin is drawn with the flower
     * progress of the hour, and the processions are scheduled only within
     * the ofrenda hours.
     */
    method AnimateOfrendaFlores(currentHour: int)
      requires Valid()
      modifies this
      ensures Valid()
      ensures State() == OfrendaDrawn(old(State()), currentHour)
    {
      if leafletMap.None? {
        return;
      }
      ClearAnimations();
      var progress := FlowerProgress(currentHour);
      var virgen := NewHandle();
      onMap := onMap + {virgen};
      activeMarkers := activeMarkers + [virgen];
      virgenProgress := Some(progress);
      if ProcessionHour(currentHour) {
        CreateOfrendaProcession();
      }
    }

    /** createOfrendaProcession: three processions, 2 s apart, towards the virgin; nothing without a map. */
    method CreateOfrendaProcession()
      requires Valid()
      modifies this
      ensures Valid()
      ensures old(leafletMap).None? ==> State() == old(State())
      ensures old(leafletMap).Some? ==> State() == old(State()).(
        pendingTimeouts := old(pendingTimeouts) + Staggered(ProcessionTasks, ProcessionSpacing, 3))
    {
      if leafletMap.None? {
        return;
      }
      Schedule(ProcessionTasks, ProcessionSpacing, 3);
    }

    /** A procession's timeout: its marker and its interval, both listed; nothing without a map. */
    method StartProcession()
      requires Valid()
      modifies this
      ensures Valid()
      ensures State() == if old(leafletMap).None? then old(State()) else WithInterval(WithMarker(old(State())))
    {
      if leafletMap.None? {
        return;
      }
      var marker := NewHandle();
      onMap := onMap + {marker};
      activeMarkers := activeMarkers + [marker];
      var interval := NewHandle();
      runningIntervals := runningIntervals + {interval};
      animationIntervals := animationIntervals + [interval];
    }

    /**
     * The last tick of a procession's interval: the interval is cleared, the
     * marker leaves the map (when there is one) and the first copy of it
     * leaves the marker list.
     */
    method ProcessionArrives(marker: int, interval: int)
      requires Valid()
      modifies this
      ensures Valid()
      ensures State() == old(State()).(
        runningIntervals := old(runningIntervals) - {interval},
        onMap := if old(leafletMap).Some? then old(onMap) - {marker} else old(onMap),
        activeMarkers := RemoveFirst(old(activeMarkers), marker))
    {
      runningIntervals := runningIntervals - {interval};
      onMap := if leafletMap.Some? then onMap - {marker} else onMap;
      activeMarkers := RemoveFirst(activeMarkers, marker);
    }

    /** animateMascleta: without a map nothing happens; otherwise clears and schedules twelve explosions. */
    method AnimateMascleta()
      requires Valid()
      modifies this
      ensures Valid()
      ensures State() == MascletaDrawn(old(State()))
    {
      if leafletMap.None? {
        return;
      }
      ClearAnimations();
      Schedule(ExplosionTasks, ExplosionSpacing, 12);
    }

    /**
     * createFireworkExplosion: a marker drawn on the map but not listed, so
     * `ClearAnimations` never removes it; its own timeout removes it after
     * 1.2 s. Nothing without a map.
     */
    method CreateFireworkExplosion()
      requires Valid()
      modifies this
      ensures Valid()
      ensures old(leafletMap).None? ==> State() == old(State())
      ensures old(leafletMap).Some? ==> State() == old(State()).(
        onMap := old(onMap) + {old(nextHandle)},
        pendingTimeouts := old(pendingTimeouts) + [Timeout(ExplosionLifetime, RemoveLayer(old(nextHandle)))],
        nextHandle := old(nextHandle) + 1)
    {
      if leafletMap.None? {
        return;
      }
      var marker := NewHandle();
      onMap := onMap + {marker};
      pendingTimeouts := pendingTimeouts + [Timeout(ExplosionLifetime, RemoveLayer(marker))];
    }

    /** animateCrema: without a map nothing happens; otherwise clears and schedules the five fires. */
    method AnimateCrema()
      requires Valid()
      modifies this
      ensures Valid()
      ensures State() == CremaDrawn(old(State()))
    {
      if leafletMap.None? {
        return;
      }
      ClearAnimations();
      Schedule(BurningTasks, BurningSpacing, 5);
    }

    /** createBurningFalla: a listed marker; nothing without a map. */
    method CreateBurningFalla()
      requires Valid()
      modifies this
      ensures Valid()
      ensures State() == if old(leafletMap).None? then old(State()) else WithMarker(old(State()))
    {
      if leafletMap.None? {
        return;
      }
      var marker := NewHandle();
      onMap := onMap + {marker};
      activeMarkers := activeMarkers + [marker];
    }

    /** The explosion's removal timeout: the layer leaves the map when there is one. */
    method RemoveLayerNow(layer: int)
      requires Valid()
      modifies this
      ensures Valid()
      ensures State() == old(State()).(onMap := if old(leafletMap).Some? then old(onMap) - {layer} else old(onMap))
    {
      if leafletMap.Some? {
        onMap := onMap - {layer};
      }
    }

    /**
     * The k-th scheduled callback fires: it leaves the queue and does its
     * work. Clearing the animations in between does not stop it.
     */
    method RunTimeout(k: nat)
      requires Valid() && k < |pendingTimeouts|
      modifies this
      ensures Valid()
      ensures State() == Fired(old(State()), k)
    {
      var t := pendingTimeouts[k].task;
      var rest := pendingTimeouts[..k] + pendingTimeouts[k + 1..];
      FiredKeepsHandles(State(), k);
      assert HandlesIssued(State().(pendingTimeouts := rest)) by {
        forall j | 0 <= j < |rest|
          ensures rest[j] == pendingTimeouts[if j < k then j else j + 1]
        {
        }
      }
      pendingTimeouts := rest;
      match t
      case SpawnDemon(route, _) => CreateMovingFireDemon(route);
      case SpawnProcession(_, _) => StartProcession();
      case SpawnExplosion(_) => CreateFireworkExplosion();
      case SpawnBurningFalla(_) => CreateBurningFalla();
      case RemoveLayer(layer) => RemoveLayerNow(layer);
    }

    /**
     * triggerAnimation: each type runs its own animation; the ofrenda runs
     * with `OfrendaHour(hour)`, so a missing hour or hour 0 gives 16.
     */
    method TriggerAnimation(kind: AnimationType, hour: Option<int>)
      requires Valid()
      modifies this
      ensures Valid()
      ensures State() == Triggered(old(State()), kind, hour)
      ensures old(leafletMap).Some? ==> pendingTimeouts == old(pendingTimeouts) + Scheduled(kind, hour)
    {
      TriggeredKeepsHandles(State(), kind, hour);
      match kind
      case Cabalgata => AnimateCabalgataDelFuego();
      case Ofrenda => AnimateOfrendaFlores(OfrendaHour(hour));
      case Mascleta => AnimateMascleta();
      case Crema => AnimateCrema();
    }
  }

  /** The interval state of one fire demon: its index on the route. */
  class FireDemon {
    var currentIndex: int
    const routeLength: nat

    ghost predicate Valid()
      reads this
    {
      0 <= currentIndex < routeLength
    }

    constructor(route: seq<Coord>)
      requires |route| > 0
      ensures routeLength == |route| && currentIndex == 0 && Valid()
    {
      routeLength := |route|;
      currentIndex := 0;
    }

    /** One tick: forward until the last point, then back to the first. */
    method Tick()
      requires Valid()
      modifies this
      ensures Valid()
      ensures currentIndex == if old(currentIndex) < routeLength - 1 then old(currentIndex) + 1 else 0
    {
      if currentIndex < routeLength - 1 {
        currentIndex := currentIndex + 1;
      } else {
        currentIndex := 0;
      }
    }
  }

  /** The interval state of one procession: the steps walked towards the virgin. */
  class ProcessionWalker {
    var currentStep: int

    ghost predicate Valid()
      reads this
    {
      0 <= currentStep <= ProcessionSteps
    }

    constructor()
      ensures currentStep == 0 && Valid()
    {
      currentStep := 0;
    }

    /**
     * One tick: a step forward while fewer than 25 were walked; otherwise the
     * procession has arrived (and the service runs `ProcessionArrives`).
     */
    method Tick() returns (arrived: bool)
      requires Valid()
      modifies this
      ensures Valid()
      ensures arrived <==> old(currentStep) == ProcessionSteps
      ensures currentStep == if arrived then old(currentStep) else old(currentStep) + 1
    {
      if currentStep < ProcessionSteps {
        currentStep := currentStep + 1;
        arrived := false;
      } else {
        arrived := true;
      }
    }
  }
}
