/** The parade and offering routes drawn on the map, with their day and hours. */
module CabalgataRoutes {
  import opened Wrappers
  import opened Geo

  /**
   * A route: its polyline, its day of the month, the hours it runs and, for
   * events spanning several days, the first and last day.
   */
  datatype CabalgataRoute = CabalgataRoute(
    coordinates: seq<Coord>,
    name: string,
    date: int,
    startHour: int,
    endHour: int,
    dateRange: Option<seq<int>>)

  const Ninot := CabalgataRoute(
    [Coord(39.4721, -0.37056), Coord(39.47282, -0.37069), Coord(39.47379, -0.37555),
     Coord(39.47232, -0.37671), Coord(39.47139, -0.37675), Coord(39.4699, -0.3763)],
    "Cabalgata del Ninot", 28, 17, 20, None)

  const Fuego := CabalgataRoute(
    [Coord(39.4738, -0.37547), Coord(39.4727, -0.37011), Coord(39.4722, -0.37004),
     Coord(39.47209, -0.36848)],
    "Cabalgata del Fuego", 19, 19, 20, None)

  const OfrendaLaPaz := CabalgataRoute(
    [Coord(39.4727, -0.37011), Coord(39.4738, -0.37547), Coord(39.47513, -0.37532),
     Coord(39.47504, -0.37504), Coord(39.47598, -0.37443), Coord(39.47626, -0.37523)],
    "Ofrenda - Calle La Paz", 17, 15, 1, Some([17, 18]))

  const OfrendaSanVicente := CabalgataRoute(
    [Coord(39.4699, -0.3763), Coord(39.47232, -0.37671), Coord(39.4738, -0.37547),
     Coord(39.47513, -0.37532), Coord(39.47527, -0.37579), Coord(39.47602, -0.37521),
     Coord(39.47626, -0.37523)],
    "Ofrenda - Calle San Vicente", 17, 15, 1, Some([17, 18]))

  /** cabalgataRoutes, keyed as in the program. */
  const Routes: map<string, CabalgataRoute> := map[
    "ninot" := Ninot,
    "fuego" := Fuego,
    "ofrenda_la_paz" := OfrendaLaPaz,
    "ofrenda_san_vicente" := OfrendaSanVicente
  ]

  /** Where the Virgin's icon stands, the end of both offering routes. */
  const PlazaVirgenCoords := Coord(39.47626, -0.37523)

  /** The Ninot parade: 28 February, 17h to 20h, six points. */
  lemma {:induction false} NinotSchedule()
    ensures Routes["ninot"].date == 28 && Routes["ninot"].startHour == 17 && Routes["ninot"].endHour == 20
    ensures |Routes["ninot"].coordinates| == 6
  {
  }

  /** The fire parade: 19 March, 19h to 20h, four points. */
  lemma {:induction false} FuegoSchedule()
    ensures Routes["fuego"].date == 19 && Routes["fuego"].startHour == 19 && Routes["fuego"].endHour == 20
    ensures |Routes["fuego"].coordinates| == 4
  {
  }

  predicate IsOfrendaKey(key: string) {
    key == "ofrenda_la_paz" || key == "ofrenda_san_vicente"
  }

  /**
   * Both offering routes run on 17 and 18 March from 15h to 1h of the next
   * day, so their end hour is below their start hour, and both end at the
   * Plaza de la Virgen.
   */
  lemma {:induction false} OfrendaRoutesWrapAndMeet(key: string)
    requires IsOfrendaKey(key)
    ensures key in Routes
    ensures Routes[key].date == 17 && Routes[key].dateRange == Some([17, 18])
    ensures Routes[key].startHour == 15 && Routes[key].endHour == 1
    ensures Routes[key].endHour < Routes[key].startHour
    ensures |Routes[key].coordinates| > 0
    ensures Routes[key].coordinates[|Routes[key].coordinates| - 1] == PlazaVirgenCoords
  {
  }

  /** Every route has at least one segment to draw. */
  lemma {:induction false} EveryRouteHasASegment(key: string)
    requires key in Routes
    ensures |Routes[key].coordinates| >= 2
  {
  }
}
