/**
 * The gallery of recommended routes: its modal state, the loading of a
 * route into the store (the fallas found by id, added one by one, and an
 * optimised route with fixed legs), and the difficulty label and colour.
 */
module RoutesGallery {
  import opened Wrappers
  import opened Seqs
  import opened Types
  import opened AppStore
  import opened RouteOptimizer
  import opened PredefinedRoutes

  /** `fallasData.find(f => f.id === id)` */
  function FallaById(data: seq<Falla>, id: int): (r: Option<Falla>)
    ensures r.Some? <==> HasId(data, id)
    ensures r.Some? ==> r.value in data && r.value.id == id
  {
    Find(data, (f: Falla) => f.id == id)
  }

  /** `fallaIds.map(id => fallasData.find(...)).filter(Boolean)` */
  function FoundFallas(ids: seq<int>, data: seq<Falla>): (r: seq<Falla>)
    ensures |r| <= |ids|
    ensures forall k :: 0 <= k < |r| ==> r[k] in data
    decreases |ids|
  {
    if |ids| == 0 then []
    else
      var rest := FoundFallas(ids[1..], data);
      match FallaById(data, ids[0])
      case Some(f) => [f] + rest
      case None => rest
  }

  /** The fallas found carry exactly the ids that have a falla, in the route's order. */
  lemma {:induction false} FoundFallasIds(ids: seq<int>, data: seq<Falla>)
    ensures Ids(FoundFallas(ids, data)) == Filter(ids, (id: int) => HasId(data, id))
    decreases |ids|
  {
    if |ids| > 0 {
      FoundFallasIds(ids[1..], data);
      FoundFallasIdsStep(ids, data);
    }
  }

  /** One more id in front: its falla, if found, goes in front. */
  lemma {:induction false} FoundFallasIdsStep(ids: seq<int>, data: seq<Falla>)
    requires |ids| > 0
    requires Ids(FoundFallas(ids[1..], data)) == Filter(ids[1..], (id: int) => HasId(data, id))
    ensures Ids(FoundFallas(ids, data)) == Filter(ids, (id: int) => HasId(data, id))
  {
    var rest := FoundFallas(ids[1..], data);
    var found := FallaById(data, ids[0]);
    FoundFallasCons(ids, data);
    if found.Some? {
      IdsCons(found.value, rest);
    }
  }

  /** FoundFallas on a non-empty list, one step unfolded. */
  lemma {:induction false} FoundFallasCons(ids: seq<int>, data: seq<Falla>)
    requires |ids| > 0
    ensures FallaById(data, ids[0]).Some? ==>
      FoundFallas(ids, data) == [FallaById(data, ids[0]).value] + FoundFallas(ids[1..], data) &&
      Filter(ids, (id: int) => HasId(data, id)) == [ids[0]] + Filter(ids[1..], (id: int) => HasId(data, id))
    ensures FallaById(data, ids[0]).None? ==>
      FoundFallas(ids, data) == FoundFallas(ids[1..], data) &&
      Filter(ids, (id: int) => HasId(data, id)) == Filter(ids[1..], (id: int) => HasId(data, id))
  {
  }

  predicate DistinctInts(s: seq<int>) {
    forall i, j :: 0 <= i < j < |s| ==> s[i] != s[j]
  }

  /** Each falla found carries one of the ids asked for. */
  lemma {:induction false} FoundFallasIdsIn(ids: seq<int>, data: seq<Falla>)
    ensures forall k :: 0 <= k < |FoundFallas(ids, data)| ==> FoundFallas(ids, data)[k].id in ids
  {
    FoundFallasIds(ids, data);
    var r := FoundFallas(ids, data);
    assert forall k :: 0 <= k < |r| ==> r[k].id == Ids(r)[k];
  }

  /** A falla whose id is new in front of fallas with distinct ids. */
  lemma {:induction false} ConsDistinct(f: Falla, rest: seq<Falla>)
    requires DistinctIds(rest)
    requires forall k :: 0 <= k < |rest| ==> rest[k].id != f.id
    ensures DistinctIds([f] + rest)
  {
    var r := [f] + rest;
    forall i, j | 0 <= i < j < |r|
      ensures r[i].id != r[j].id
    {
      assert r[j] == rest[j - 1];
      if i > 0 {
        assert r[i] == rest[i - 1];
      }
    }
  }

  /** Distinct ids give fallas with distinct ids. */
  lemma {:induction false} FoundFallasDistinct(ids: seq<int>, data: seq<Falla>)
    requires DistinctInts(ids)
    ensures DistinctIds(FoundFallas(ids, data))
    decreases |ids|
  {
    if |ids| > 0 {
      FoundFallasDistinct(ids[1..], data);
      FoundFallasIdsIn(ids[1..], data);
      assert ids[0] !in ids[1..];
      match FallaById(data, ids[0])
      case Some(f) =>
        ConsDistinct(f, FoundFallas(ids[1..], data));
      case None =>
    }
  }

  /** Every catalogue route lists distinct falla ids. */
  lemma {:induction false} CatalogueIdsDistinct(k: nat)
    requires k < |Routes|
    ensures DistinctInts(Routes[k].fallaIds)
  {
    var p := Routes[k];
    if k == 0 { assert p == Institutional; }
    else if k == 1 { assert p == Vanguard; }
    else if k == 2 { assert p == Family; }
    else if k == 3 { assert p == Artist; }
    else if k == 4 { assert p == Express; }
    else if k == 5 { assert p == Historic; }
    else if k == 6 { assert p == Photography; }
    else { assert p == Gastronomic; }
  }

  /** The optimised route set on loading: the first stop at 0 km and 0 min, each later one at 0.5 km and 6 min. */
  function Annotate(fallas: seq<Falla>): (r: seq<RouteStop>)
    ensures |r| == |fallas| && StopFallas(r) == fallas
    ensures |r| > 0 ==> r[0].distanceFromPrevious == Some(0.0) && r[0].estimatedWalkingTime == Some(0)
    ensures forall k :: 0 < k < |r| ==> r[k].distanceFromPrevious == Some(0.5) && r[k].estimatedWalkingTime == Some(6)
  {
    var r := seq(|fallas|, k requires 0 <= k < |fallas| =>
      RouteStop(fallas[k], Some(if k > 0 then 0.5 else 0.0), Some(if k > 0 then 6 else 0)));
    assert StopFallas(r) == fallas;
    r
  }

  /** So a loaded route of n stops totals 0.5·(n−1) km and 6·(n−1) minutes. */
  lemma {:induction false} AnnotateTotals(fallas: seq<Falla>)
    requires |fallas| > 0
    ensures SumDistance(Annotate(fallas)) == 0.5 * (|fallas| - 1) as real
    ensures SumTime(Annotate(fallas)) == 6 * (|fallas| - 1)
    decreases |fallas|
  {
    var r := Annotate(fallas);
    if |fallas| > 1 {
      var init := fallas[..|fallas| - 1];
      AnnotateTotals(init);
      assert r[..|r| - 1] == Annotate(init);
    } else {
      assert r[..0] == [];
    }
  }

  /** getDifficultyLabel */
  function DifficultyLabel(difficulty: string): (r: string)
    ensures r == "" <==> difficulty != "easy" && difficulty != "medium" && difficulty != "hard"
  {
    match difficulty
    case "easy" => "F\U{E1}cil"
    case "medium" => "Media"
    case "hard" => "Dif\U{ED}cil"
    case _ => ""
  }

  /** getDifficultyColor */
  function DifficultyColor(difficulty: string): (r: string)
    ensures r == "var(--azul)" <==> difficulty != "easy" && difficulty != "medium" && difficulty != "hard"
  {
    match difficulty
    case "easy" => "var(--verde)"
    case "medium" => "var(--amarillo)"
    case "hard" => "var(--naranja)"
    case _ => "var(--azul)"
  }

  /** Every catalogue route has a label and a colour of its own difficulty. */
  lemma {:induction false} CatalogueLabels(k: nat)
    requires k < |Routes|
    ensures DifficultyLabel(Routes[k].difficulty) != ""
    ensures DifficultyColor(Routes[k].difficulty) != "var(--azul)"
  {
    NoHardRoutes();
  }

  /** The gallery component: whether its modal is open and which route's detail is shown. */
  class Gallery {
    var isOpen: bool
    var selectedRoute: Option<PredefinedRoute>
    const store: AppStore

    constructor(store: AppStore)
      ensures this.store == store && !isOpen && selectedRoute == None
    {
      this.store := store;
      isOpen := false;
      selectedRoute := None;
    }

    /** The gallery button and the overlay or close button of the modal. */
    method SetIsOpen(open: bool)
      modifies this
      ensures isOpen == open && selectedRoute == old(selectedRoute)
    {
      isOpen := open;
    }

    /** A route card opens its detail; the detail's overlay and close button pass None. */
    method SetSelectedRoute(route: Option<PredefinedRoute>)
      modifies this
      ensures selectedRoute == route && isOpen == old(isOpen)
    {
      selectedRoute := route;
    }

    /** `fallas.forEach(falla => addToRoute(falla))` */
    method AddEach(fallas: seq<Falla>)
      modifies store
      ensures store.State() == old(store.State()).(selectedRoute := WithAddedAll(old(store.selectedRoute), fallas))
    {
      ghost var start := store.selectedRoute;
      for i := 0 to |fallas|
        invariant store.State() == old(store.State()).(selectedRoute := WithAddedAll(start, fallas[..i]))
      {
        ghost var added := fallas[..i];
        assert fallas[..i + 1] == added + [fallas[i]];
        WithAddedAllSnoc(start, added, fallas[i]);
        var _ := store.AddToRoute(fallas[i]);
      }
      assert fallas[..|fallas|] == fallas;
    }

    /**
     * loadPredefinedRoute: when no falla of the route is found nothing
     * changes; otherwise the store's route is cleared, each found falla is
     * added in turn, the optimised route is set to the annotated fallas and
     * the gallery closes.
     */
    method LoadPredefinedRoute(route: PredefinedRoute, fallasData: seq<Falla>)
      modifies this, store
      ensures var fallas := FoundFallas(route.fallaIds, fallasData);
        if |fallas| == 0 then
          isOpen == old(isOpen) && selectedRoute == old(selectedRoute) && store.State() == old(store.State())
        else
          !isOpen && selectedRoute == None &&
          store.State() == old(store.State()).(selectedRoute := WithAddedAll([], fallas), optimizedRoute := Annotate(fallas))
    {
      var fallas := FoundFallas(route.fallaIds, fallasData);
      if |fallas| > 0 {
        store.ClearRoute();
        AddEach(fallas);
        store.SetOptimizedRoute(Annotate(fallas));
        isOpen := false;
        selectedRoute := None;
      }
    }
  }

  /** Loading a catalogue route puts exactly its found fallas, in list order, on the store's route. */
  lemma {:induction false} LoadedCatalogueRoute(k: nat, fallasData: seq<Falla>)
    requires k < |Routes|
    ensures WithAddedAll([], FoundFallas(Routes[k].fallaIds, fallasData)) == FoundFallas(Routes[k].fallaIds, fallasData)
  {
    var fallas := FoundFallas(Routes[k].fallaIds, fallasData);
    CatalogueIdsDistinct(k);
    FoundFallasDistinct(Routes[k].fallaIds, fallasData);
    assert [] + fallas == fallas;
    WithAddedAllDistinct([], fallas);
  }
}
