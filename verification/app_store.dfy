/**
 * The application store: one record of state whose fields are replaced by
 * setters. The route under construction never holds two fallas with the
 * same id as long as it only grows through `AddToRoute`.
 */
module AppStore {
  import opened Wrappers
  import opened Geo
  import opened Seqs
  import opened Types
  import opened TransportModes

  datatype ClockMode = Real | Manual

  /** The type filter of the map: every falla, or only one type. */
  datatype FallaTypeFilter = AllTypes | Grande | Infantil
  {
    function Name(): string {
      match this
      case AllTypes => "all"
      case Grande => "grande"
      case Infantil => "infantil"
    }
  }

  predicate HasId(route: seq<Falla>, id: int) {
    exists k :: 0 <= k < |route| && route[k].id == id
  }

  predicate DistinctIds(route: seq<Falla>) {
    forall i, j :: 0 <= i < j < |route| ==> route[i].id != route[j].id
  }

  /** The route after addToRoute(f): f appended unless a falla with its id is already there. */
  function WithAdded(route: seq<Falla>, f: Falla): (r: seq<Falla>)
    ensures HasId(route, f.id) ==> r == route
    ensures !HasId(route, f.id) ==> r == route + [f]
  {
    if Find(route, (g: Falla) => g.id == f.id).Some? then route else route + [f]
  }

  /** addToRoute never introduces a repeated id. */
  lemma {:induction false} WithAddedKeepsIdsDistinct(route: seq<Falla>, f: Falla)
    requires DistinctIds(route)
    ensures DistinctIds(WithAdded(route, f))
  {
    if !HasId(route, f.id) {
      var r := route + [f];
      forall i, j | 0 <= i < j < |r|
        ensures r[i].id != r[j].id
      {
        if j == |route| {
          assert r[i] == route[i];
        }
      }
    }
  }

  /** The route after adding each of fs in turn, as loadPredefinedRoute does. */
  function WithAddedAll(route: seq<Falla>, fs: seq<Falla>): seq<Falla>
    decreases |fs|
  {
    if |fs| == 0 then route else WithAddedAll(WithAdded(route, fs[0]), fs[1..])
  }

  /** Whatever sequence of additions built it, the route has pairwise distinct ids. */
  lemma {:induction false} WithAddedAllKeepsIdsDistinct(route: seq<Falla>, fs: seq<Falla>)
    requires DistinctIds(route)
    ensures DistinctIds(WithAddedAll(route, fs))
    decreases |fs|
  {
    if |fs| > 0 {
      WithAddedKeepsIdsDistinct(route, fs[0]);
      WithAddedAllKeepsIdsDistinct(WithAdded(route, fs[0]), fs[1..]);
    }
  }

  /** Adding one more falla at the end of a run of additions. */
  lemma {:induction false} WithAddedAllSnoc(route: seq<Falla>, fs: seq<Falla>, f: Falla)
    ensures WithAddedAll(route, fs + [f]) == WithAdded(WithAddedAll(route, fs), f)
    decreases |fs|
  {
    if |fs| == 0 {
      assert fs + [f] == [f];
    } else {
      assert (fs + [f])[1..] == fs[1..] + [f];
      WithAddedAllSnoc(WithAdded(route, fs[0]), fs[1..], f);
    }
  }

  /** Adding fallas with distinct ids to an empty route keeps them all, in order. */
  lemma {:induction false} WithAddedAllDistinct(route: seq<Falla>, fs: seq<Falla>)
    requires DistinctIds(route + fs)
    ensures WithAddedAll(route, fs) == route + fs
    decreases |fs|
  {
    if |fs| > 0 {
      assert !HasId(route, fs[0].id) by {
        forall k | 0 <= k < |route|
          ensures route[k].id != fs[0].id
        {
          assert (route + fs)[k] == route[k] && (route + fs)[|route|] == fs[0];
        }
      }
      assert route + fs == (route + [fs[0]]) + fs[1..];
      WithAddedAllDistinct(route + [fs[0]], fs[1..]);
    }
  }

  /** The route after removeFromRoute(id): every other falla, in order. */
  function WithRemoved(route: seq<Falla>, id: int): (r: seq<Falla>)
    ensures !HasId(r, id)
    ensures IsSubsequence(r, route)
    ensures forall k :: 0 <= k < |route| && route[k].id != id ==> route[k] in r
  {
    Filter(route, (g: Falla) => g.id != id)
  }

  /** Removing fallas keeps the remaining ids distinct. */
  lemma {:induction false} WithRemovedKeepsIdsDistinct(route: seq<Falla>, id: int)
    requires DistinctIds(route)
    ensures DistinctIds(WithRemoved(route, id))
    decreases |route|
  {
    if |route| > 0 {
      var tail := route[1..];
      assert DistinctIds(tail) by {
        forall i, j | 0 <= i < j < |tail|
          ensures tail[i].id != tail[j].id
        {
          assert tail[i] == route[i + 1] && tail[j] == route[j + 1];
        }
      }
      WithRemovedKeepsIdsDistinct(tail, id);
      if route[0].id != id {
        var r := WithRemoved(route, id);
        assert r == [route[0]] + WithRemoved(tail, id);
        forall i, j | 0 <= i < j < |r|
          ensures r[i].id != r[j].id
        {
          if i == 0 {
            assert r[j] in tail;
            var m :| 0 <= m < |tail| && tail[m] == r[j];
            assert route[m + 1] == r[j];
          }
        }
      }
    }
  }

  /** Every field of the store at one moment, to state what a setter leaves as it was. */
  datatype StoreState = StoreState(
    userLocation: Coord,
    selectedFalla: Option<Falla>,
    selectedRoute: seq<Falla>,
    optimizedRoute: seq<RouteStop>,
    transportMode: TransportMode,
    selectedDay: int,
    selectedHour: int,
    clockMode: ClockMode,
    currentAnimation: Option<AnimationType>,
    isPanelOpen: bool,
    isRouteBuilderOpen: bool,
    isFiltersOpen: bool,
    fallaTypeFilter: FallaTypeFilter,
    categoryFilter: Option<Category>,
    isNavigating: bool)

  class AppStore {
    var userLocation: Coord
    var selectedFalla: Option<Falla>
    var selectedRoute: seq<Falla>
    var optimizedRoute: seq<RouteStop>
    var transportMode: TransportMode
    var selectedDay: int
    var selectedHour: int
    var clockMode: ClockMode
    var currentAnimation: Option<AnimationType>
    var isPanelOpen: bool
    var isRouteBuilderOpen: bool
    var isFiltersOpen: bool
    var fallaTypeFilter: FallaTypeFilter
    var categoryFilter: Option<Category>
    var isNavigating: bool

    /** The whole state of the store. */
    function State(): StoreState
      reads this
    {
      StoreState(userLocation, selectedFalla, selectedRoute, optimizedRoute, transportMode,
        selectedDay, selectedHour, clockMode, currentAnimation, isPanelOpen, isRouteBuilderOpen,
        isFiltersOpen, fallaTypeFilter, categoryFilter, isNavigating)
    }

    /** The state the application starts in. */
    constructor()
      ensures State() == StoreState(Coord(39.4699, -0.3763), None, [], [], Walking, 15, 12, Real, None,
        false, false, false, AllTypes, None, false)
      ensures DistinctIds(selectedRoute)
    {
      userLocation := Coord(39.4699, -0.3763);
      selectedFalla := None;
      selectedRoute := [];
      optimizedRoute := [];
      transportMode := Walking;
      selectedDay := 15;
      selectedHour := 12;
      clockMode := Real;
      currentAnimation := None;
      isPanelOpen := false;
      isRouteBuilderOpen := false;
      isFiltersOpen := false;
      fallaTypeFilter := AllTypes;
      categoryFilter := None;
      isNavigating := false;
    }

    /** setSelectedFalla: the panel is open exactly when a falla is selected; nothing else changes. */
    method SetSelectedFalla(falla: Option<Falla>)
      modifies this
      ensures selectedFalla == falla && isPanelOpen == falla.Some?
      ensures State() == old(State()).(selectedFalla := falla, isPanelOpen := falla.Some?)
    {
      selectedFalla := falla;
      isPanelOpen := falla.Some?;
    }

    method SetIsPanelOpen(isOpen: bool)
      modifies this
      ensures State() == old(State()).(isPanelOpen := isOpen)
    {
      isPanelOpen := isOpen;
    }

    /** addToRoute: appends the falla unless its id is already on the route; says whether it did. */
    method AddToRoute(falla: Falla) returns (added: bool)
      modifies this
      ensures added <==> !HasId(old(selectedRoute), falla.id)
      ensures selectedRoute == WithAdded(old(selectedRoute), falla)
      ensures old(DistinctIds(selectedRoute)) ==> DistinctIds(selectedRoute)
      ensures State() == old(State()).(selectedRoute := WithAdded(old(selectedRoute), falla))
    {
      var existing := Find(selectedRoute, (g: Falla) => g.id == falla.id);
      if existing.None? {
        if DistinctIds(selectedRoute) {
          WithAddedKeepsIdsDistinct(selectedRoute, falla);
        }
        selectedRoute := selectedRoute + [falla];
        return true;
      }
      return false;
    }

    /** removeFromRoute: drops the fallas with that id and discards the optimised route. */
    method RemoveFromRoute(fallaId: int)
      modifies this
      ensures selectedRoute == WithRemoved(old(selectedRoute), fallaId)
      ensures old(DistinctIds(selectedRoute)) ==> DistinctIds(selectedRoute)
      ensures State() == old(State()).(selectedRoute := WithRemoved(old(selectedRoute), fallaId), optimizedRoute := [])
    {
      if DistinctIds(selectedRoute) {
        WithRemovedKeepsIdsDistinct(selectedRoute, fallaId);
      }
      selectedRoute := Filter(selectedRoute, (g: Falla) => g.id != fallaId);
      optimizedRoute := [];
    }

    /** clearRoute */
    method ClearRoute()
      modifies this
      ensures State() == old(State()).(selectedRoute := [], optimizedRoute := [])
    {
      selectedRoute := [];
      optimizedRoute := [];
    }

    /** setOptimizedRoute: changes nothing else. */
    method SetOptimizedRoute(route: seq<RouteStop>)
      modifies this
      ensures State() == old(State()).(optimizedRoute := route)
    {
      optimizedRoute := route;
    }

    method SetSelectedDay(day: int)
      modifies this
      ensures State() == old(State()).(selectedDay := day)
    {
      selectedDay := day;
    }

    method SetSelectedHour(hour: int)
      modifies this
      ensures State() == old(State()).(selectedHour := hour)
    {
      selectedHour := hour;
    }

    method SetClockMode(mode: ClockMode)
      modifies this
      ensures State() == old(State()).(clockMode := mode)
    {
      clockMode := mode;
    }

    method SetUserLocation(location: Coord)
      modifies this
      ensures State() == old(State()).(userLocation := location)
    {
      userLocation := location;
    }

    method SetTransportMode(mode: TransportMode)
      modifies this
      ensures State() == old(State()).(transportMode := mode)
    {
      transportMode := mode;
    }

    method SetCurrentAnimation(animation: Option<AnimationType>)
      modifies this
      ensures State() == old(State()).(currentAnimation := animation)
    {
      currentAnimation := animation;
    }

    method SetIsRouteBuilderOpen(isOpen: bool)
      modifies this
      ensures State() == old(State()).(isRouteBuilderOpen := isOpen)
    {
      isRouteBuilderOpen := isOpen;
    }

    method SetIsFiltersOpen(isOpen: bool)
      modifies this
      ensures State() == old(State()).(isFiltersOpen := isOpen)
    {
      isFiltersOpen := isOpen;
    }

    method SetFallaTypeFilter(filter: FallaTypeFilter)
      modifies this
      ensures State() == old(State()).(fallaTypeFilter := filter)
    {
      fallaTypeFilter := filter;
    }

    method SetCategoryFilter(category: Option<Category>)
      modifies this
      ensures State() == old(State()).(categoryFilter := category)
    {
      categoryFilter := category;
    }

    method SetIsNavigating(navigating: bool)
      modifies this
      ensures State() == old(State()).(isNavigating := navigating)
    {
      isNavigating := navigating;
    }
  }
}
