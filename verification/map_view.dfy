/**
 * The map: which fallas get a marker under the store's type and category
 * filters, the class list of a falla's marker, the day or night tile style,
 * and the polyline and numbered markers of the optimised route.
 */
module MapView {
  import opened Wrappers
  import opened Text
  import opened Seqs
  import opened Geo
  import opened Types
  import opened AppStore
  import opened CalendarWidget
  import opened FallasData

  /** `fallaTypeFilter === 'all' || falla.type === fallaTypeFilter` */
  predicate KeepsType(filter: FallaTypeFilter, f: Falla) {
    filter == AllTypes || f.fallaType == Some(filter.Name())
  }

  /** `!categoryFilter || falla.category === categoryFilter` */
  predicate KeepsCategory(filter: Option<Category>, f: Falla) {
    filter.None? || f.category == filter.value
  }

  predicate PassesFilters(typeFilter: FallaTypeFilter, categoryFilter: Option<Category>, f: Falla) {
    KeepsType(typeFilter, f) && KeepsCategory(categoryFilter, f)
  }

  /** `filteredFallas`: the fallas that pass both filters, in catalogue order. */
  function FilteredFallas(data: seq<Falla>, typeFilter: FallaTypeFilter, categoryFilter: Option<Category>): (r: seq<Falla>)
    ensures IsSubsequence(r, data)
    ensures forall k :: 0 <= k < |r| ==> KeepsType(typeFilter, r[k]) && KeepsCategory(categoryFilter, r[k])
    ensures forall k :: 0 <= k < |data| && KeepsType(typeFilter, data[k]) && KeepsCategory(categoryFilter, data[k])
              ==> data[k] in r
  {
    Filter(data, (f: Falla) => PassesFilters(typeFilter, categoryFilter, f))
  }

  /** With neither filter set, every falla gets a marker. */
  lemma {:induction false} NoFilterShowsAll(data: seq<Falla>)
    ensures FilteredFallas(data, AllTypes, None) == data
  {
    FilterAll(data, (f: Falla) => PassesFilters(AllTypes, None, f));
  }

  /** Applying both filters at once is filtering by type and then by category. */
  lemma {:induction false} FiltersCompose(data: seq<Falla>, typeFilter: FallaTypeFilter, categoryFilter: Option<Category>)
    ensures FilteredFallas(data, typeFilter, categoryFilter)
         == Filter(Filter(data, (f: Falla) => KeepsType(typeFilter, f)), (f: Falla) => KeepsCategory(categoryFilter, f))
    decreases |data|
  {
    if |data| > 0 {
      FiltersCompose(data[1..], typeFilter, categoryFilter);
    }
  }

  /**
   * The type filter compares the raw `type` string: the infantil filter keeps
   * exactly the fallas typed 'infantil', and the grande filter keeps none of
   * those typed 'adulta', as the catalogue's adult fallas are.
   */
  lemma {:induction false} TypeFilterCompares(f: Falla)
    ensures KeepsType(Infantil, f) <==> IsInfantilFalla(f)
    ensures IsAdulta(f) ==> !KeepsType(Grande, f)
    ensures f.fallaType.None? ==> !KeepsType(Grande, f) && !KeepsType(Infantil, f)
  {
  }

  /** `markerClass += ' ' + token` when the condition holds. */
  function WithClass(s: string, add: bool, token: string): string {
    s + (if add then " " + token else "")
  }

  /** The class list after `WithClass`. */
  function WithToken(cs: seq<string>, add: bool, token: string): seq<string> {
    cs + (if add then [token] else [])
  }

  /** The class list of a falla's marker. */
  function MarkerClasses(f: Falla): (cs: seq<string>)
    ensures |cs| >= 1 && cs[0] == "custom-marker"
    ensures "marker-infantil" in cs <==> f.fallaType == Some("infantil")
    ensures "marker-experimental" in cs <==> f.isExperimental || f.category == Experimental
    ensures "marker-municipal" in cs <==> f.isMunicipal || f.category == Municipal
  {
    WithToken(WithToken(WithToken(["custom-marker"],
      f.fallaType == Some("infantil"), "marker-infantil"),
      f.isExperimental || f.category == Experimental, "marker-experimental"),
      f.isMunicipal || f.category == Municipal, "marker-municipal")
  }

  /** `markerClass`: 'custom-marker', then ' ' and each suffix that applies. */
  function MarkerClass(f: Falla): (r: string)
    ensures r == Join(MarkerClasses(f), " ")
  {
    var a, b, c := f.fallaType == Some("infantil"), f.isExperimental || f.category == Experimental,
      f.isMunicipal || f.category == Municipal;
    var s1 := WithClass("custom-marker", a, "marker-infantil");
    var s2 := WithClass(s1, b, "marker-experimental");
    assert Join(["custom-marker"], " ") == "custom-marker";
    AppendClass("custom-marker", ["custom-marker"], a, "marker-infantil");
    AppendClass(s1, WithToken(["custom-marker"], a, "marker-infantil"), b, "marker-experimental");
    AppendClass(s2, WithToken(WithToken(["custom-marker"], a, "marker-infantil"), b, "marker-experimental"),
      c, "marker-municipal");
    WithClass(s2, c, "marker-municipal")
  }

  /** Appending ' ' and a class to a class attribute appends it to the class list. */
  lemma {:induction false} AppendClass(s: string, cs: seq<string>, add: bool, token: string)
    requires |cs| >= 1 && s == Join(cs, " ")
    ensures WithClass(s, add, token) == Join(WithToken(cs, add, token), " ")
  {
    if add {
      JoinSnoc(cs, token, " ");
      assert s + (" " + token) == Join(cs, " ") + " " + token;
    } else {
      assert cs + [] == cs;
      assert s + "" == s;
    }
  }

  /** A class attribute built from three optional classes splits back into its list. */
  lemma {:induction false} ClassTokens(t0: string, t1: string, t2: string, t3: string, a: bool, b: bool, c: bool)
    requires ' ' !in t0 && ' ' !in t1 && ' ' !in t2 && ' ' !in t3
    ensures Split(WithClass(WithClass(WithClass(t0, a, t1), b, t2), c, t3), ' ')
         == WithToken(WithToken(WithToken([t0], a, t1), b, t2), c, t3)
  {
    var c1 := WithToken([t0], a, t1);
    var c2 := WithToken(c1, b, t2);
    var c3 := WithToken(c2, c, t3);
    assert Join([t0], " ") == t0;
    AppendClass(t0, [t0], a, t1);
    AppendClass(WithClass(t0, a, t1), c1, b, t2);
    AppendClass(WithClass(WithClass(t0, a, t1), b, t2), c2, c, t3);
    assert forall k :: 0 <= k < |c3| ==> c3[k] in {t0, t1, t2, t3};
    SplitJoin(c3, ' ');
  }

  /** The class attribute, split on spaces, is the class list. */
  lemma {:induction false} MarkerClassTokens(f: Falla)
    ensures Split(MarkerClass(f), ' ') == MarkerClasses(f)
  {
    assert ' ' !in "custom-marker" && ' ' !in "marker-infantil";
    assert ' ' !in "marker-experimental" && ' ' !in "marker-municipal";
    ClassTokens("custom-marker", "marker-infantil", "marker-experimental", "marker-municipal",
      f.fallaType == Some("infantil"), f.isExperimental || f.category == Experimental,
      f.isMunicipal || f.category == Municipal);
  }

  /**
   * A falla of the catalogue never gets the experimental or municipal
   * class: its category is one of the four section categories and both
   * flags are absent.
   */
  lemma {:induction false} CatalogueMarkersPlain(raw: RawFalla)
    ensures "marker-experimental" !in MarkerClasses(ToFalla(raw))
    ensures "marker-municipal" !in MarkerClasses(ToFalla(raw))
  {
  }

  /** The tile style: light from 7:00 to 19:59, dark otherwise. */
  function MapStyle(hour: int): (style: string)
    ensures style == "light-v11" <==> IsDayTime(hour)
    ensures style == "dark-v11" <==> !IsDayTime(hour)
  {
    if hour >= 7 && hour < 20 then "light-v11" else "dark-v11"
  }

  /**
   * The map and the calendar read the hour the same way and split the day
   * the same way: the light tiles show exactly when the calendar says day.
   */
  lemma {:induction false} MapStyleFollowsCalendar(mode: ClockMode, realHour: int, selectedHour: int)
    ensures var hour := DisplayHour(mode, realHour, selectedHour);
            MapStyle(hour) == "light-v11" <==> TimeOfDayLabel(hour) == "D\U{CD}A"
  {
  }

  /** The tile URL of a style. */
  function TileURL(style: string, token: string): (url: string)
    ensures StartsWith(url, "https://api.mapbox.com/styles/v1/mapbox/")
  {
    "https://api.mapbox.com/styles/v1/mapbox/" + style + "/tiles/{z}/{x}/{y}?access_token=" + token
  }

  /** The style sits right after the fixed head of the tile URL. */
  lemma {:induction false} TileURLStyle(style: string, token: string)
    ensures var head := "https://api.mapbox.com/styles/v1/mapbox/";
            TileURL(style, token)[|head|..|head| + |style|] == style
  {
  }

  /** The positions of the stops of a route, in order. */
  function StopPositions(route: seq<RouteStop>): (ps: seq<Coord>)
    ensures |ps| == |route|
    ensures forall k :: 0 <= k < |route| ==> ps[k] == route[k].falla.Position()
  {
    seq(|route|, k requires 0 <= k < |route| => route[k].falla.Position())
  }

  /** `RouteLayer`'s polyline: nothing for an empty route, else the user and then every stop. */
  function RouteCoordinates(user: Coord, route: seq<RouteStop>): (line: seq<Coord>)
    ensures |route| == 0 ==> line == []
    ensures |route| > 0 ==> |line| == |route| + 1 && line[0] == user && line[1..] == StopPositions(route)
  {
    if |route| == 0 then [] else [user] + StopPositions(route)
  }

  /** A numbered marker of the route: its number and its position. */
  datatype NumberMarker = NumberMarker(number: int, position: Coord)

  /** The numbered markers of a route, one per stop from 1. */
  function RouteMarkers(route: seq<RouteStop>): (ms: seq<NumberMarker>)
    ensures |ms| == |route|
  {
    seq(|route|, k requires 0 <= k < |route| => NumberMarker(k + 1, route[k].falla.Position()))
  }

  /** Marker number i sits on the polyline's vertex i, the first vertex being the user. */
  lemma {:induction false} MarkersOnPolyline(user: Coord, route: seq<RouteStop>, k: nat)
    requires k < |route|
    ensures RouteMarkers(route)[k].number == k + 1
    ensures RouteMarkers(route)[k].position == RouteCoordinates(user, route)[k + 1]
  {
    assert RouteCoordinates(user, route)[k + 1] == StopPositions(route)[k];
  }
}
