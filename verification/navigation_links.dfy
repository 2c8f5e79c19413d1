/**
 * The links NavigationService opens in an external maps application:
 * Google Maps directions through the route's valid intermediate stops,
 * Apple Maps directions to the last stop, Waze to the first stop, and the
 * choice between Apple and Google by user agent. Each operation returns
 * the URL it would open, or None where the service returns without opening
 * anything. `sanitizeCoord` (toFixed(6), parseFloat, toString) and the
 * plain number rendering Waze uses are parameters.
 */
module NavigationLinks {
  import opened Wrappers
  import opened Text
  import opened Seqs
  import opened Geo
  import opened Types
  import opened TransportModes

  /** isValidCoordinate: latitude in [-90, 90], longitude in [-180, 180]; model reals are finite. */
  predicate IsValidCoordinate(c: Coord) {
    -90.0 <= c.lat <= 90.0 && -180.0 <= c.lng <= 180.0
  }

  function StopCoord(s: RouteStop): Coord {
    s.falla.Position()
  }

  predicate ValidStop(s: RouteStop) {
    IsValidCoordinate(StopCoord(s))
  }

  /** `${f(lat)},${f(lng)}` */
  function PairText(c: Coord, f: real -> string): (r: string)
    ensures |r| > 0
  {
    f(c.lat) + "," + f(c.lng)
  }

  /** `route.slice(1, -1)`: the stops strictly between the first and the last. */
  function Interior(route: seq<RouteStop>): (r: seq<RouteStop>)
    ensures |r| == if |route| <= 2 then 0 else |route| - 2
    ensures forall k :: 0 <= k < |r| ==> r[k] == route[k + 1]
  {
    if |route| <= 2 then [] else route[1..|route| - 1]
  }

  /** The stops sent as waypoints: the interior stops with valid coordinates, in route order. */
  function WaypointStops(route: seq<RouteStop>): (r: seq<RouteStop>)
    ensures IsSubsequence(r, Interior(route))
    ensures forall k :: 0 <= k < |r| ==> ValidStop(r[k])
    ensures forall k :: 1 <= k < |route| - 1 && ValidStop(route[k]) ==> route[k] in r
    ensures |route| <= 2 ==> r == []
  {
    var inner := Interior(route);
    assert forall k :: 1 <= k < |route| - 1 ==> route[k] == inner[k - 1];
    Filter(inner, ValidStop)
  }

  function WaypointTexts(ws: seq<RouteStop>, sanitize: real -> string): (r: seq<string>)
    ensures |r| == |ws|
    ensures forall k :: 0 <= k < |r| ==> r[k] == PairText(StopCoord(ws[k]), sanitize)
  {
    seq(|ws|, k requires 0 <= k < |ws| => PairText(StopCoord(ws[k]), sanitize))
  }

  /** The '|'-joined waypoint pairs; empty exactly when no waypoint remains. */
  function WaypointsText(route: seq<RouteStop>, sanitize: real -> string): (r: string)
    ensures r == "" <==> |WaypointStops(route)| == 0
  {
    var texts := WaypointTexts(WaypointStops(route), sanitize);
    assert |texts| > 0 ==> |Join(texts, "|")| >= |texts[0]| by {
      if |texts| > 0 {
        JoinStartsWithFirst(texts, "|");
      }
    }
    Join(texts, "|")
  }

  /** A join is at least as long as its first part. */
  lemma {:induction false} JoinStartsWithFirst(parts: seq<string>, sep: string)
    requires |parts| > 0
    ensures |Join(parts, sep)| >= |parts[0]|
  {
  }

  /** The `travelmode` table: every mode is sent under its own name. */
  function GoogleTravelMode(m: TransportMode): (r: string)
    ensures r == m.Name()
    ensures r == GetTransportModeConfig(m).googleMapsParam
  {
    match m
    case Walking => "walking"
    case Bicycling => "bicycling"
    case Transit => "transit"
    case Driving => "driving"
  }

  /** Apple's `dirflg` table: there is no cycling mode, so cycling walks. */
  function AppleDirFlag(m: TransportMode): (r: string)
    ensures r == "w" <==> m == Walking || m == Bicycling
    ensures r == "r" <==> m == Transit
    ensures r == "d" <==> m == Driving
  {
    match m
    case Walking => "w"
    case Bicycling => "w"
    case Transit => "r"
    case Driving => "d"
  }

  const GoogleBase := "https://www.google.com/maps/dir/?api=1"

  /** The directions URL up to, not including, the optional waypoints. */
  function GoogleHead(origin: Coord, destination: Coord, sanitize: real -> string): string {
    GoogleBase + "&origin=" + PairText(origin, sanitize) + "&destination=" + PairText(destination, sanitize)
  }

  /** A directions URL: the head, the waypoints parameter unless there are none, the mode. */
  function GoogleLink(head: string, waypoints: string, modeName: string): string {
    head + (if waypoints != "" then "&waypoints=" + waypoints else "") + "&travelmode=" + modeName
  }

  /** openInGoogleMaps */
  function GoogleMapsURL(route: seq<RouteStop>, user: Coord, mode: TransportMode, sanitize: real -> string): (r: Option<string>)
    ensures r.Some? <==> |route| > 0 && IsValidCoordinate(user) && ValidStop(route[|route| - 1])
  {
    if |route| == 0 then None
    else if !IsValidCoordinate(user) then None
    else
      var destination := route[|route| - 1];
      if !ValidStop(destination) then None
      else Some(GoogleLink(GoogleHead(user, StopCoord(destination), sanitize), WaypointsText(route, sanitize), GoogleTravelMode(mode)))
  }

  /** A directions URL begins with its head and ends with its mode. */
  lemma {:induction false} GoogleLinkFrame(head: string, waypoints: string, modeName: string)
    ensures StartsWith(GoogleLink(head, waypoints, modeName), head)
    ensures EndsWith(GoogleLink(head, waypoints, modeName), "&travelmode=" + modeName)
  {
    var middle := if waypoints != "" then "&waypoints=" + waypoints else "";
    var tail := "&travelmode=" + modeName;
    var url := GoogleLink(head, waypoints, modeName);
    assert url == head + middle + tail;
    assert url[..|head|] == head;
    assert url[|url| - |tail|..] == tail;
  }

  /** The waypoints parameter is there, whole, exactly when there are waypoints. */
  lemma {:induction false} GoogleLinkWaypoints(head: string, waypoints: string, modeName: string)
    ensures waypoints == "" ==> GoogleLink(head, waypoints, modeName) == head + "&travelmode=" + modeName
    ensures waypoints != "" ==> Contains(GoogleLink(head, waypoints, modeName), "&waypoints=" + waypoints)
  {
    if waypoints != "" {
      var param := "&waypoints=" + waypoints;
      var tail := "&travelmode=" + modeName;
      assert GoogleLink(head, waypoints, modeName) == head + (param + tail);
      ContainsAt(param, param, 0);
      ContainsInPrefix(param, tail, param);
      ContainsInSuffix(head, param + tail, param);
    }
  }

  /** The link starts from the user's position, leads to the last stop and ends with the mode. */
  lemma {:induction false} GoogleOriginAndDestination(route: seq<RouteStop>, user: Coord, mode: TransportMode, sanitize: real -> string)
    requires GoogleMapsURL(route, user, mode, sanitize).Some?
    ensures StartsWith(GoogleMapsURL(route, user, mode, sanitize).value,
                       GoogleHead(user, StopCoord(route[|route| - 1]), sanitize))
    ensures EndsWith(GoogleMapsURL(route, user, mode, sanitize).value, "&travelmode=" + mode.Name())
  {
    GoogleLinkFrame(GoogleHead(user, StopCoord(route[|route| - 1]), sanitize), WaypointsText(route, sanitize), GoogleTravelMode(mode));
  }

  /**
   * Without a valid interior stop the waypoints parameter is left out;
   * otherwise it is present and lists every valid interior stop.
   */
  lemma {:induction false} GoogleWaypointsParam(route: seq<RouteStop>, user: Coord, mode: TransportMode, sanitize: real -> string, i: nat)
    requires GoogleMapsURL(route, user, mode, sanitize).Some?
    ensures |WaypointStops(route)| == 0 ==>
      GoogleMapsURL(route, user, mode, sanitize).value
        == GoogleHead(user, StopCoord(route[|route| - 1]), sanitize) + "&travelmode=" + mode.Name()
    ensures i < |WaypointStops(route)| ==>
      Contains(GoogleMapsURL(route, user, mode, sanitize).value, "&waypoints=" + WaypointsText(route, sanitize)) &&
      Contains(GoogleMapsURL(route, user, mode, sanitize).value, PairText(StopCoord(WaypointStops(route)[i]), sanitize))
  {
    var waypoints := WaypointsText(route, sanitize);
    var url := GoogleMapsURL(route, user, mode, sanitize).value;
    GoogleLinkWaypoints(GoogleHead(user, StopCoord(route[|route| - 1]), sanitize), waypoints, GoogleTravelMode(mode));
    if i < |WaypointStops(route)| {
      var texts := WaypointTexts(WaypointStops(route), sanitize);
      JoinContains(texts, "|", i);
      ContainsInSuffix("&waypoints=", waypoints, texts[i]);
      ContainsTransitive(url, "&waypoints=" + waypoints, texts[i]);
    }
  }

  /** navigateToStop: directions from the user to one stop, without any check. */
  function NavigateToStopURL(stop: RouteStop, user: Coord, mode: TransportMode, sanitize: real -> string): (r: string)
    ensures StartsWith(r, GoogleHead(user, StopCoord(stop), sanitize))
    ensures EndsWith(r, "&travelmode=" + mode.Name())
  {
    GoogleLinkFrame(GoogleHead(user, StopCoord(stop), sanitize), "", GoogleTravelMode(mode));
    GoogleLink(GoogleHead(user, StopCoord(stop), sanitize), "", GoogleTravelMode(mode))
  }

  /** For valid positions, navigating to a stop opens the link of the one-stop route. */
  lemma {:induction false} NavigateToStopIsOneStopRoute(stop: RouteStop, user: Coord, mode: TransportMode, sanitize: real -> string)
    requires IsValidCoordinate(user) && ValidStop(stop)
    ensures GoogleMapsURL([stop], user, mode, sanitize) == Some(NavigateToStopURL(stop, user, mode, sanitize))
  {
    assert WaypointStops([stop]) == [];
  }

  /** openInAppleMaps: no coordinate is checked, so only an empty route opens nothing. */
  function AppleMapsURL(route: seq<RouteStop>, user: Coord, mode: TransportMode, sanitize: real -> string): (r: Option<string>)
    ensures r.Some? <==> |route| > 0
  {
    if |route| == 0 then None
    else
      var destination := StopCoord(route[|route| - 1]);
      Some("https://maps.apple.com/?saddr=" + PairText(user, sanitize)
           + "&daddr=" + PairText(destination, sanitize)
           + "&dirflg=" + AppleDirFlag(mode))
  }

  /** Apple directions lead to the last stop, with the mode's flag at the end. */
  lemma {:induction false} AppleDestinationIsLast(route: seq<RouteStop>, user: Coord, mode: TransportMode, sanitize: real -> string)
    requires |route| > 0
    ensures Contains(AppleMapsURL(route, user, mode, sanitize).value,
                     "&daddr=" + PairText(StopCoord(route[|route| - 1]), sanitize))
    ensures EndsWith(AppleMapsURL(route, user, mode, sanitize).value, "&dirflg=" + AppleDirFlag(mode))
  {
    var head := "https://maps.apple.com/?saddr=" + PairText(user, sanitize);
    var dest := "&daddr=" + PairText(StopCoord(route[|route| - 1]), sanitize);
    var tail := "&dirflg=" + AppleDirFlag(mode);
    var url := AppleMapsURL(route, user, mode, sanitize).value;
    assert url == head + (dest + tail);
    ContainsAt(dest, dest, 0);
    ContainsInPrefix(dest, tail, dest);
    ContainsInSuffix(head, dest + tail, dest);
    assert url[|url| - |tail|..] == tail;
  }

  /** openInWaze: the first stop only, its coordinates written as plain numbers. */
  function WazeURL(route: seq<RouteStop>, show: real -> string): (r: Option<string>)
    ensures r.Some? <==> |route| > 0
  {
    if |route| == 0 then None
    else Some("https://waze.com/ul?ll=" + PairText(StopCoord(route[0]), show) + "&navigate=yes")
  }

  /** Waze ignores everything after the first stop. */
  lemma {:induction false} WazeUsesFirstStop(a: seq<RouteStop>, b: seq<RouteStop>, show: real -> string)
    requires |a| > 0 && |b| > 0 && StopCoord(a[0]) == StopCoord(b[0])
    ensures WazeURL(a, show) == WazeURL(b, show)
  {
  }

  /** `/iPad|iPhone|iPod/.test(userAgent)` */
  predicate IsIOS(userAgent: string) {
    Contains(userAgent, "iPad") || Contains(userAgent, "iPhone") || Contains(userAgent, "iPod")
  }

  /** openInPreferredApp */
  function PreferredURL(route: seq<RouteStop>, user: Coord, mode: TransportMode, userAgent: string, sanitize: real -> string): (r: Option<string>)
    ensures r.Some? <==> |route| > 0 && (IsIOS(userAgent) || (IsValidCoordinate(user) && ValidStop(route[|route| - 1])))
  {
    if IsIOS(userAgent) then AppleMapsURL(route, user, mode, sanitize)
    else GoogleMapsURL(route, user, mode, sanitize)
  }

  /** A user agent naming an Apple device anywhere gets Apple Maps. */
  lemma {:induction false} PreferredOnAppleDevice(route: seq<RouteStop>, user: Coord, mode: TransportMode, before: string, device: string, after: string, sanitize: real -> string)
    requires device == "iPad" || device == "iPhone" || device == "iPod"
    ensures PreferredURL(route, user, mode, before + device + after, sanitize) == AppleMapsURL(route, user, mode, sanitize)
  {
    var ua := before + device + after;
    assert ua[|before|..|before| + |device|] == device;
    ContainsAt(ua, device, |before|);
  }

  /** Any other user agent gets Google Maps. */
  lemma {:induction false} PreferredElsewhere(route: seq<RouteStop>, user: Coord, mode: TransportMode, userAgent: string, sanitize: real -> string)
    requires !Contains(userAgent, "iPad") && !Contains(userAgent, "iPhone") && !Contains(userAgent, "iPod")
    ensures PreferredURL(route, user, mode, userAgent, sanitize) == GoogleMapsURL(route, user, mode, sanitize)
  {
  }
}
