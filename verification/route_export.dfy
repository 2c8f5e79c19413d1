/**
 * RouteExportService: the JSON payload a route is exported as, the GPX
 * document, the importer's validation of a route file, and the total
 * distance and walking time the export reports. Building the download
 * (JSON.stringify, Blob, object URL, the click on a hidden link), reading
 * the file and JSON.parse are I/O: the importer receives the file's size,
 * its MIME type and what JSON.parse made of its text.
 */
module RouteExport {
  import opened Wrappers
  import opened Text
  import opened JsNumber
  import opened NumberText
  import opened Geo
  import opened Types
  import Seqs

  /** One stop as the payload lists it. */
  datatype ExportedStop = ExportedStop(id: int, name: string, lat: real, lng: real)

  /** The stats block: the rendered distance, the minutes, the number of stops. */
  datatype ExportStats = ExportStats(totalDistance: string, totalTime: int, totalStops: nat)

  /** Every member of the payload but the stops. */
  datatype RouteHeader = RouteHeader(
    version: string,
    name: string,
    description: Option<string>,
    createdAt: string,
    optimized: bool,
    stats: Option<ExportStats>)

  /** ExportedRoute */
  datatype ExportedRoute = ExportedRoute(header: RouteHeader, stops: seq<ExportedStop>)

  const ExportVersion: string := "1.0"
  const DefaultJsonName: string := "Mi Ruta Fallas 2026"
  const DefaultGpxName: string := "Ruta Fallas"

  /** The 5 km/h walking pace the export assumes. */
  const WalkingSpeedKmH: real := 5.0

  // ---------------------------------------------------------------------
  // Total distance and time

  /**
   * The length of the path through the stops in order: the sum of the
   * great-circle distances of consecutive stops; nothing for fewer than two.
   */
  function PathLength(route: seq<RouteStop>, haversine: Distance): (km: real)
    ensures km >= 0.0
    ensures |route| <= 1 ==> km == 0.0
    decreases |route|
  {
    if |route| <= 1 then 0.0
    else
      PathLength(route[..|route| - 1], haversine)
      + haversine(route[|route| - 2].falla.Position(), route[|route| - 1].falla.Position())
  }

  /** Stopping twice at the same place adds nothing to the path. */
  lemma {:induction false} PathLengthRepeatLast(route: seq<RouteStop>, haversine: Distance)
    requires |route| >= 1
    ensures PathLength(route + [route[|route| - 1]], haversine) == PathLength(route, haversine)
  {
    PathLengthAppend(route, route[|route| - 1], haversine);
    var p := route[|route| - 1].falla.Position();
    assert haversine(p, p) == 0.0;
  }

  /** Appending a stop adds the leg to it. */
  lemma {:induction false} PathLengthAppend(route: seq<RouteStop>, s: RouteStop, haversine: Distance)
    requires |route| >= 1
    ensures PathLength(route + [s], haversine)
      == PathLength(route, haversine) + haversine(route[|route| - 1].falla.Position(), s.falla.Position())
  {
    var r := route + [s];
    assert r[..|r| - 1] == route;
  }

  /** What calculateTotalDistance returns: the length with two decimals and " km". */
  function TotalDistanceText(route: seq<RouteStop>, haversine: Distance): (r: string)
    ensures |r| >= 3 && r[|r| - 3..] == " km"
  {
    ToFixed2(PathLength(route, haversine)) + " km"
  }

  /** calculateTotalDistance */
  method CalculateTotalDistance(route: seq<RouteStop>, haversine: Distance) returns (text: string)
    ensures text == TotalDistanceText(route, haversine)
  {
    var total := 0.0;
    var i := 0;
    while i < |route| - 1
      invariant 0 <= i <= if |route| == 0 then 0 else |route| - 1
      invariant |route| == 0 ==> total == 0.0
      invariant |route| > 0 ==> total == PathLength(route[..i + 1], haversine)
    {
      assert route[..i + 2][..i + 1] == route[..i + 1];
      total := total + haversine(route[i].falla.Position(), route[i + 1].falla.Position());
      i := i + 1;
    }
    if |route| > 0 {
      assert route[..i + 1] == route;
    }
    text := ToFixed2(total) + " km";
  }

  /** The minutes the export reports: the rounded distance at 5 km/h, rounded to the minute. */
  function TotalMinutes(route: seq<RouteStop>, haversine: Distance): (r: int)
    ensures r >= 0
  {
    Round(FixedValue(PathLength(route, haversine)) / WalkingSpeedKmH * 60.0)
  }

  /**
   * calculateTotalTime: parses the distance text back. The text always
   * starts with a number, so parseFloat never gives NaN here.
   */
  method CalculateTotalTime(route: seq<RouteStop>, haversine: Distance) returns (minutes: int)
    ensures minutes == TotalMinutes(route, haversine)
  {
    var distance := CalculateTotalDistance(route, haversine);
    var km := ParseFloat(distance);
    ParseFloatOfFixed(PathLength(route, haversine), " km");
    minutes := Round(km.value / WalkingSpeedKmH * 60.0);
  }

  /**
   * The reported minutes are 12 per kilometre of path, give or take the
   * two roundings: never negative and within 0.56 of the exact value.
   */
  lemma {:induction false} TotalMinutesNearPace(route: seq<RouteStop>, haversine: Distance)
    ensures TotalMinutes(route, haversine) >= 0
    ensures PathLength(route, haversine) * 12.0 - 0.56 <= TotalMinutes(route, haversine) as real
    ensures TotalMinutes(route, haversine) as real <= PathLength(route, haversine) * 12.0 + 0.56
  {
    var km := PathLength(route, haversine);
    var v := FixedValue(km);
    assert v / WalkingSpeedKmH * 60.0 == v * 12.0;
  }

  /** A longer path never reports fewer minutes. */
  lemma {:induction false} TotalMinutesMonotone(a: seq<RouteStop>, b: seq<RouteStop>, haversine: Distance)
    requires PathLength(a, haversine) <= PathLength(b, haversine)
    ensures TotalMinutes(a, haversine) <= TotalMinutes(b, haversine)
  {
    var x, y := PathLength(a, haversine), PathLength(b, haversine);
    HundredthsMonotone(x, y);
  }

  lemma {:induction false} HundredthsMonotone(x: real, y: real)
    requires 0.0 <= x <= y
    ensures Hundredths(x) <= Hundredths(y)
  {
    assert (x * 100.0 + 0.5).Floor <= (y * 100.0 + 0.5).Floor;
  }

  // ---------------------------------------------------------------------
  // Export

  /** The four members a stop keeps in the payload. */
  function ExportStop(stop: RouteStop): (e: ExportedStop)
    ensures e.id == stop.falla.id && e.name == stop.falla.name
    ensures e.lat == stop.falla.lat && e.lng == stop.falla.lng
  {
    ExportedStop(stop.falla.id, stop.falla.name, stop.falla.lat, stop.falla.lng)
  }

  function ExportStops(route: seq<RouteStop>): (r: seq<ExportedStop>)
    ensures |r| == |route|
    ensures forall k :: 0 <= k < |route| ==> r[k] == ExportStop(route[k])
  {
    seq(|route|, k requires 0 <= k < |route| => ExportStop(route[k]))
  }

  /**
   * exportToJSON's payload. The clock reading is `createdAt`; the name
   * defaults to 'Mi Ruta Fallas 2026' at the call site (DefaultJsonName).
   */
  method ExportToJSON(route: seq<RouteStop>, routeName: string, description: Option<string>,
                      createdAt: string, haversine: Distance) returns (data: ExportedRoute)
    ensures data.header.version == ExportVersion && data.header.optimized
    ensures data.header.name == routeName && data.header.description == description
    ensures data.header.createdAt == createdAt
    ensures data.stops == ExportStops(route)
    ensures data.header.stats.Some? <==> |route| > 0
    ensures data.header.stats.Some? ==> data.header.stats.value == ExportStats(
      TotalDistanceText(route, haversine), TotalMinutes(route, haversine), |route|)
  {
    var stats: Option<ExportStats> := None;
    if |route| > 0 {
      var distance := CalculateTotalDistance(route, haversine);
      var minutes := CalculateTotalTime(route, haversine);
      stats := Some(ExportStats(distance, minutes, |route|));
    }
    data := ExportedRoute(RouteHeader(ExportVersion, routeName, description, createdAt, true, stats),
                          ExportStops(route));
  }

  // ---------------------------------------------------------------------
  // Import

  /**
   * A stop as JSON.parse left it: each member is None when it is missing
   * or of another JSON type. A number is a finite real: a literal too
   * large for a double, which JSON.parse reads as Infinity, is not
   * represented.
   */
  datatype ImportedStop = ImportedStop(
    id: Option<real>,
    name: Option<string>,
    lat: Option<real>,
    lng: Option<real>)

  /**
   * The parsed document: `stops` is None when the member is missing or is
   * not an array; `rest` is every other member, which the importer passes
   * on unread.
   */
  datatype ImportedData<Rest> = ImportedData(stops: Option<seq<ImportedStop>>, rest: Rest)

  /** The file: its size in bytes, its MIME type and JSON.parse's result (None: a syntax error). */
  datatype ImportFile<Rest> = ImportFile(size: nat, mimeType: string, parsed: Option<ImportedData<Rest>>)

  const MaxImportBytes: nat := 100 * 1024
  const MaxImportStops: nat := 50
  const MaxStopName: nat := 200

  /** The MIME types accepted; an empty type (unknown) is accepted too. */
  predicate MimeAllowed(mimeType: string) {
    mimeType in ["application/json", "text/plain", ""]
  }

  /** The per-stop test of the importer. */
  predicate ValidStop(s: ImportedStop) {
    && s.id.Some? && s.id.value > 0.0
    && s.name.Some? && 1 <= |s.name.value| <= MaxStopName
    && s.lat.Some? && -90.0 <= s.lat.value <= 90.0
    && s.lng.Some? && -180.0 <= s.lng.value <= 180.0
  }

  /** What importFromJSON accepts. */
  predicate Acceptable<Rest>(file: ImportFile<Rest>) {
    && file.size <= MaxImportBytes
    && MimeAllowed(file.mimeType)
    && file.parsed.Some?
    && file.parsed.value.stops.Some?
    && |file.parsed.value.stops.value| <= MaxImportStops
    && forall k :: 0 <= k < |file.parsed.value.stops.value| ==> ValidStop(file.parsed.value.stops.value[k])
  }

  /**
   * importFromJSON: each failed test throws, and the catch turns it into
   * null (None); an accepted file's document is returned as parsed.
   */
  method ImportFromJSON<Rest>(file: ImportFile<Rest>) returns (r: Option<ImportedData<Rest>>)
    ensures r.Some? <==> Acceptable(file)
    ensures r.Some? ==> r == file.parsed
  {
    if file.size > MaxImportBytes {
      return None;
    }
    if file.mimeType != "" && !(file.mimeType in ["application/json", "text/plain", ""]) {
      return None;
    }
    if file.parsed.None? {
      return None;
    }
    var data := file.parsed.value;
    if data.stops.None? {
      return None;
    }
    var stops := data.stops.value;
    if |stops| > MaxImportStops {
      return None;
    }
    for i := 0 to |stops|
      invariant forall k :: 0 <= k < i ==> ValidStop(stops[k])
    {
      var stop := stops[i];
      if !(stop.id.Some? && stop.id.value > 0.0)
        || !(stop.name.Some? && |stop.name.value| != 0 && |stop.name.value| <= MaxStopName)
        || !(stop.lat.Some? && stop.lat.value >= -90.0 && stop.lat.value <= 90.0)
        || !(stop.lng.Some? && stop.lng.value >= -180.0 && stop.lng.value <= 180.0)
      {
        return None;
      }
    }
    return Some(data);
  }

  /** A stop of the payload, read back by JSON.parse. */
  function ParsedStop(e: ExportedStop): (s: ImportedStop)
    ensures s.id == Some(e.id as real) && s.name == Some(e.name)
    ensures s.lat == Some(e.lat) && s.lng == Some(e.lng)
  {
    ImportedStop(Some(e.id as real), Some(e.name), Some(e.lat), Some(e.lng))
  }

  /** The payload as JSON.parse reads it back from its JSON.stringify text. */
  function Parsed(data: ExportedRoute): (p: ImportedData<RouteHeader>)
    ensures p.stops.Some? && |p.stops.value| == |data.stops|
    ensures forall k :: 0 <= k < |data.stops| ==> p.stops.value[k] == ParsedStop(data.stops[k])
    ensures p.rest == data.header
  {
    ImportedData(Some(seq(|data.stops|, k requires 0 <= k < |data.stops| => ParsedStop(data.stops[k]))), data.header)
  }

  /** A falla the importer takes back: positive id, a 1..200-character name, coordinates in range. */
  predicate Importable(f: Falla) {
    && f.id > 0
    && 1 <= |f.name| <= MaxStopName
    && -90.0 <= f.lat <= 90.0 && -180.0 <= f.lng <= 180.0
  }

  /**
   * The importer accepts what the exporter wrote, as long as the file is
   * at most 100 KiB, the route has at most 50 stops and each of them is
   * importable; it then gives the payload back with the route's stops in
   * order.
   */
  lemma {:induction false} ImportAcceptsExport(data: ExportedRoute, route: seq<RouteStop>, size: nat, mimeType: string)
    requires data.stops == ExportStops(route)
    requires |route| <= MaxImportStops && size <= MaxImportBytes
    requires mimeType in ["application/json", "text/plain", ""]
    requires forall k :: 0 <= k < |route| ==> Importable(route[k].falla)
    ensures Acceptable(ImportFile(size, mimeType, Some(Parsed(data))))
    ensures forall k :: 0 <= k < |route| ==>
      Parsed(data).stops.value[k].id == Some(route[k].falla.id as real)
  {
    var p := Parsed(data);
    forall k | 0 <= k < |p.stops.value|
      ensures ValidStop(p.stops.value[k])
    {
      assert p.stops.value[k] == ParsedStop(ExportStop(route[k]));
      assert Importable(route[k].falla);
    }
  }

  /** A route with more than 50 stops is refused however it was produced. */
  lemma {:induction false} ImportRejectsLongRoutes<Rest>(file: ImportFile<Rest>)
    requires file.parsed.Some? && file.parsed.value.stops.Some?
    requires |file.parsed.value.stops.value| > MaxImportStops
    ensures !Acceptable(file)
  {
  }

  // ---------------------------------------------------------------------
  // GPX

  const GpxPlaceDesc: string := "Falla de Val\U{E0}ncia"

  /**
   * One `<rtept>`: the stop's coordinates (rendered by `show`, String(n)),
   * "Parada i+1: name" and the theme, or 'Falla de València' when the
   * theme is empty.
   */
  function RoutePoint(index: nat, stop: RouteStop, show: real -> string): string {
    "    <rtept lat=\"" + show(stop.falla.lat) + "\" lon=\"" + show(stop.falla.lng) + "\">\n"
    + "      <name>" + StopTitle(index, stop) + "</name>\n"
    + "      <desc>" + (if stop.falla.theme == "" then GpxPlaceDesc else stop.falla.theme) + "</desc>\n"
    + "    </rtept>"
  }

  /** "Parada n: name", numbering the stops from 1. */
  function StopTitle(index: nat, stop: RouteStop): string {
    "Parada " + NatToString(index + 1) + ": " + stop.falla.name
  }

  function RoutePoints(route: seq<RouteStop>, show: real -> string): (r: seq<string>)
    ensures |r| == |route|
    ensures forall k :: 0 <= k < |route| ==> r[k] == RoutePoint(k, route[k], show)
  {
    seq(|route|, k requires 0 <= k < |route| => RoutePoint(k, route[k], show))
  }

  /** The GPX 1.1 document exportToGPX writes; `time` is the clock's ISO reading. */
  function GpxDocument(route: seq<RouteStop>, routeName: string, time: string, show: real -> string): (r: string)
    ensures GpxHead(routeName, time) <= r
    ensures EndsWith(r, GpxTail)
  {
    EndsWithAppend(GpxHead(routeName, time) + Join(RoutePoints(route, show), "\n"), GpxTail);
    Seqs.PrefixOfAppend(GpxHead(routeName, time), Join(RoutePoints(route, show), "\n"), GpxTail);
    GpxHead(routeName, time) + Join(RoutePoints(route, show), "\n") + GpxTail
  }

  const GpxTail: string := "\n  </rte>\n</gpx>"

  /** A part of a join occurs in any text framing the join. */
  lemma {:induction false} PartInFrame(head: string, parts: seq<string>, sep: string, tail: string, i: nat)
    requires i < |parts|
    ensures Contains(head + Join(parts, sep) + tail, parts[i])
  {
    JoinContains(parts, sep, i);
    ContainsInSuffix(head, Join(parts, sep), parts[i]);
    ContainsInPrefix(head + Join(parts, sep), tail, parts[i]);
  }

  function GpxHead(routeName: string, time: string): string {
    "<?xml version=\"1.0\" encoding=\"UTF-8\"?>\n"
    + "<gpx version=\"1.1\" creator=\"Fallas Val\U{E0}ncia 2026\" xmlns=\"http://www.topografix.com/GPX/1/1\">\n"
    + "  <metadata>\n"
    + "    <name>" + routeName + "</name>\n"
    + "    <desc>Ruta de Fallas de Val\U{E0}ncia 2026</desc>\n"
    + "    <time>" + time + "</time>\n"
    + "  </metadata>\n"
    + "  <rte>\n"
    + "    <name>" + routeName + "</name>\n"
  }

  /** A route point carries the stop's numbered title. */
  lemma {:induction false} PointHasTitle(index: nat, stop: RouteStop, show: real -> string)
    ensures Contains(RoutePoint(index, stop, show), StopTitle(index, stop))
  {
    var before := "    <rtept lat=\"" + show(stop.falla.lat) + "\" lon=\"" + show(stop.falla.lng) + "\">\n"
      + "      <name>";
    var title := StopTitle(index, stop);
    var after := "</name>\n"
      + "      <desc>" + (if stop.falla.theme == "" then GpxPlaceDesc else stop.falla.theme) + "</desc>\n"
      + "    </rtept>";
    assert RoutePoint(index, stop, show) == before + title + after;
    assert (before + title + after)[|before|..|before| + |title|] == title;
    ContainsAt(RoutePoint(index, stop, show), title, |before|);
  }

  /** Every stop of the route appears in the document as its numbered route point. */
  lemma {:induction false} GpxListsEveryStop(route: seq<RouteStop>, routeName: string, time: string, show: real -> string, i: nat)
    requires i < |route|
    ensures Contains(GpxDocument(route, routeName, time, show), RoutePoint(i, route[i], show))
    ensures Contains(GpxDocument(route, routeName, time, show), StopTitle(i, route[i]))
  {
    PartInFrame(GpxHead(routeName, time), RoutePoints(route, show), "\n", GpxTail, i);
    PointHasTitle(i, route[i], show);
    ContainsTransitive(GpxDocument(route, routeName, time, show), RoutePoint(i, route[i], show), StopTitle(i, route[i]));
  }
}
