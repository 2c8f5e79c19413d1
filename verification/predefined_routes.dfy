/**
 * The catalogue of recommended routes and its queries: lookup by id,
 * filtering by tag, by difficulty and by maximum duration. The duration
 * filter reads the number before the first '-' of the duration text as
 * hours, so "45-60 min" counts as 45 hours.
 */
module PredefinedRoutes {
  import opened Wrappers
  import opened Text
  import opened Seqs

  /** A recommended route; the description and recommendation texts are left out. */
  datatype PredefinedRoute = PredefinedRoute(
    id: string,
    name: string,
    icon: string,
    duration: string,
    distance: string,
    difficulty: string,
    fallaIds: seq<int>,
    tags: seq<string>)

  const Institutional := PredefinedRoute("institutional", "Ruta Institucional", "\U{1F3DB}\U{FE0F}", "2-3 horas", "3.5 km", "easy",
    [335, 10219, 10, 11, 12, 13], ["Municipal", "Especial", "Historia", "Premiadas"])

  const Vanguard := PredefinedRoute("vanguard", "Ruta Vanguardista", "\U{1F52C}", "2.5 horas", "4.2 km", "medium",
    [3, 4, 5, 240, 6, 7], ["Experimental", "Arte Contempor\U{E1}neo", "Innovaci\U{F3}n"])

  const Family := PredefinedRoute("family", "Ruta Familiar", "\U{1F468}\U{200D}\U{1F469}\U{200D}\U{1F467}\U{200D}\U{1F466}", "1.5-2 horas", "2.1 km", "easy",
    [10219, 8, 9, 10, 11], ["Infantil", "Familiar", "Corta", "F\U{E1}cil"])

  const Artist := PredefinedRoute("artist", "Ruta del Arte Fallero", "\U{1F3A8}", "3-4 horas", "5.8 km", "medium",
    [10, 11, 12, 13, 14, 15, 16], ["Arte", "Artistas", "Especial", "Primera"])

  const Express := PredefinedRoute("express", "Ruta Expr\U{E9}s", "\U{26A1}", "45-60 min", "1.8 km", "easy",
    [335, 10, 11, 12, 13], ["R\U{E1}pida", "Esencial", "Centro"])

  const Historic := PredefinedRoute("historic", "Ruta Hist\U{F3}rica", "\U{1F4DC}", "3 horas", "4.5 km", "medium",
    [10, 122, 32, 88, 54, 124], ["Historia", "Tradici\U{F3}n", "Patrimonio"])

  const Photography := PredefinedRoute("photography", "Ruta del Fot\U{F3}grafo", "\U{1F4F8}", "2.5 horas", "3.2 km", "easy",
    [335, 10, 122, 88, 54], ["Fotograf\U{ED}a", "Arquitectura", "Plazas"])

  const Gastronomic := PredefinedRoute("gastronomic", "Ruta Gastron\U{F3}mica Fallera", "\U{1F37D}\U{FE0F}", "4-5 horas", "3.8 km", "easy",
    [10, 12, 13, 54, 240], ["Gastronom\U{ED}a", "Cultura", "Ocio"])

  /** predefinedRoutes, in declaration order. */
  const Routes: seq<PredefinedRoute> := [Institutional, Vanguard, Family, Artist, Express, Historic, Photography, Gastronomic]

  predicate DistinctRouteIds(rs: seq<PredefinedRoute>) {
    forall i, j :: 0 <= i < j < |rs| ==> rs[i].id != rs[j].id
  }

  /** Eight routes, no two with the same id, each with at least one tag and one falla. */
  lemma {:induction false} CatalogueShape()
    ensures |Routes| == 8 && DistinctRouteIds(Routes)
    ensures forall k :: 0 <= k < |Routes| ==> |Routes[k].tags| > 0 && |Routes[k].fallaIds| > 0
  {
  }

  /** getPredefinedRoute */
  function GetPredefinedRoute(id: string): (r: Option<PredefinedRoute>)
    ensures r.Some? <==> exists k :: 0 <= k < |Routes| && Routes[k].id == id
    ensures r.Some? ==> r.value in Routes && r.value.id == id
  {
    Find(Routes, (p: PredefinedRoute) => p.id == id)
  }

  /** Since the ids are distinct, looking up a route's id finds that very route. */
  lemma {:induction false} GetPredefinedRouteOfEach(k: nat)
    requires k < |Routes|
    ensures GetPredefinedRoute(Routes[k].id) == Some(Routes[k])
  {
    CatalogueShape();
    var r := GetPredefinedRoute(Routes[k].id);
    var j :| 0 <= j < |Routes| && Routes[j] == r.value;
    assert Routes[j].id == Routes[k].id;
  }

  /** `route.tags.some(t => t.toLowerCase().includes(tag.toLowerCase()))` */
  predicate HasMatchingTag(route: PredefinedRoute, tag: string) {
    exists k :: 0 <= k < |route.tags| && Contains(ToLower(route.tags[k]), ToLower(tag))
  }

  /** filterRoutesByTag: the routes with a matching tag, in catalogue order. */
  function FilterRoutesByTag(tag: string): (r: seq<PredefinedRoute>)
    ensures IsSubsequence(r, Routes)
    ensures forall k :: 0 <= k < |r| ==> HasMatchingTag(r[k], tag)
    ensures forall k :: 0 <= k < |Routes| && HasMatchingTag(Routes[k], tag) ==> Routes[k] in r
  {
    Filter(Routes, (p: PredefinedRoute) => HasMatchingTag(p, tag))
  }

  /** The empty query is contained in every tag, so it keeps the whole catalogue. */
  lemma {:induction false} FilterRoutesByEmptyTag()
    ensures FilterRoutesByTag("") == Routes
  {
    CatalogueShape();
    forall p | p in Routes
      ensures HasMatchingTag(p, "")
    {
      assert StartsWith(ToLower(p.tags[0]), ToLower(""));
    }
    FilterAll(Routes, (p: PredefinedRoute) => HasMatchingTag(p, ""));
  }

  /** filterRoutesByDifficulty: exactly the routes of that difficulty, in catalogue order. */
  function FilterRoutesByDifficulty(difficulty: string): (r: seq<PredefinedRoute>)
    ensures IsSubsequence(r, Routes)
    ensures forall k :: 0 <= k < |r| ==> r[k].difficulty == difficulty
    ensures forall k :: 0 <= k < |Routes| && Routes[k].difficulty == difficulty ==> Routes[k] in r
  {
    Filter(Routes, (p: PredefinedRoute) => p.difficulty == difficulty)
  }

  /** Every route is easy or medium, so asking for hard routes gives none. */
  lemma {:induction false} NoHardRoutes()
    ensures forall k :: 0 <= k < |Routes| ==> Routes[k].difficulty == "easy" || Routes[k].difficulty == "medium"
    ensures FilterRoutesByDifficulty("hard") == []
  {
    var r := FilterRoutesByDifficulty("hard");
    assert |r| > 0 ==> r[0] in Routes;
  }

  /** `parseInt(duration.split('-')[0]) * 60`; None stands for NaN. */
  function StartMinutes(duration: string): (r: Option<int>)
    ensures r.Some? ==> r.value % 60 == 0
  {
    match ParseInt(Split(duration, '-')[0])
    case None => None
    case Some(n) => Some(n * 60)
  }

  /** A duration text that starts with a number n counts as n hours. */
  lemma {:induction false} StartMinutesOf(n: nat, tail: string)
    requires |tail| > 0 ==> !IsDigit(tail[0])
    ensures StartMinutes(NatToString(n) + tail) == Some(n * 60)
  {
    var d := NatToString(n);
    assert '-' !in d by {
      forall k | 0 <= k < |d|
        ensures d[k] != '-'
      {
        assert IsDigit(d[k]);
      }
    }
    SplitNoSeparator(d, tail, '-');
    var first := Split(tail, '-')[0];
    assert |first| > 0 ==> !IsDigit(first[0]) by {
      if |tail| > 0 && tail[0] != '-' {
        assert first == [tail[0]] + Split(tail[1..], '-')[0];
      }
    }
    ParseIntNatToString(n, first);
  }

  /** "45-60 min" is read as 45 hours. */
  lemma {:induction false} MinuteRangeReadAsHours()
    ensures StartMinutes("45-60 min") == Some(2700)
  {
    StartMinutesOf(45, "-60 min");
    assert NatToString(45) + "-60 min" == "45-60 min";
  }

  /** "2.5 horas" loses its half hour. */
  lemma {:induction false} DecimalHoursTruncated()
    ensures StartMinutes("2.5 horas") == Some(120)
  {
    StartMinutesOf(2, ".5 horas");
    assert NatToString(2) + ".5 horas" == "2.5 horas";
  }

  predicate FitsIn(route: PredefinedRoute, maxMinutes: real) {
    match StartMinutes(route.duration)
    case None => false
    case Some(m) => m as real <= maxMinutes
  }

  /** getRoutesByMaxDuration: the routes whose counted minutes are at most maxMinutes, in order. */
  function GetRoutesByMaxDuration(maxMinutes: real): (r: seq<PredefinedRoute>)
    ensures IsSubsequence(r, Routes)
    ensures forall k :: 0 <= k < |r| ==> FitsIn(r[k], maxMinutes)
    ensures forall k :: 0 <= k < |Routes| && FitsIn(Routes[k], maxMinutes) ==> Routes[k] in r
  {
    Filter(Routes, (p: PredefinedRoute) => FitsIn(p, maxMinutes))
  }

  /** A catalogue route is returned exactly when it fits. */
  lemma {:induction false} KeptIffFits(p: PredefinedRoute, maxMinutes: real)
    requires p in Routes
    ensures p in GetRoutesByMaxDuration(maxMinutes) <==> FitsIn(p, maxMinutes)
  {
    var r := GetRoutesByMaxDuration(maxMinutes);
    if p in r {
      var j :| 0 <= j < |r| && r[j] == p;
    }
  }

  /** The express route, 45 to 60 minutes long, is found only from 2700 minutes on. */
  lemma {:induction false} ExpressThreshold(maxMinutes: real)
    ensures Express in GetRoutesByMaxDuration(maxMinutes) <==> maxMinutes >= 2700.0
  {
    assert Routes[4] == Express;
    KeptIffFits(Express, maxMinutes);
    assert StartMinutes(Express.duration) == Some(2700) by {
      MinuteRangeReadAsHours();
    }
  }
}
