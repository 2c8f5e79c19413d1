/**
 * The greedy nearest-neighbour route planner: starting from the user's
 * position it repeatedly walks to the closest falla not yet visited, and it
 * sums the legs of a planned route. The distance is the haversine function,
 * passed in and known only to be non-negative.
 */
module RouteOptimizer {
  import opened Wrappers
  import opened JsNumber
  import opened Text
  import opened NumberText
  import opened Geo
  import opened Types
  import opened TransportModes

  /** The first index among those at the least distance from `from`. */
  function NearestIndex(from: Coord, remaining: seq<Falla>, dist: Distance): (k: nat)
    requires |remaining| > 0
    ensures k < |remaining|
    ensures forall j :: 0 <= j < |remaining| ==>
      dist(from, remaining[k].Position()) <= dist(from, remaining[j].Position())
    ensures forall j :: 0 <= j < k ==>
      dist(from, remaining[k].Position()) < dist(from, remaining[j].Position())
    decreases |remaining|
  {
    if |remaining| == 1 then 0
    else
      var k := NearestIndex(from, remaining[..|remaining| - 1], dist);
      var last := |remaining| - 1;
      if dist(from, remaining[last].Position()) < dist(from, remaining[k].Position()) then last else k
  }

  /** The stop the planner emits for falla f reached from `from`. */
  function Leg(from: Coord, f: Falla, mode: TransportMode, dist: Distance): RouteStop {
    var d := dist(from, f.Position());
    RouteStop(f, Some(d), Some(CalculateEstimatedTime(d, mode)))
  }

  function Without(s: seq<Falla>, k: nat): (r: seq<Falla>)
    requires k < |s|
    ensures |r| == |s| - 1
    ensures multiset(r) + multiset{s[k]} == multiset(s)
  {
    assert s == s[..k] + [s[k]] + s[k + 1..];
    s[..k] + s[k + 1..]
  }

  /** The route the planner builds from `current` over `remaining`. */
  function Greedy(current: Coord, remaining: seq<Falla>, mode: TransportMode, dist: Distance): (r: seq<RouteStop>)
    ensures |r| == |remaining|
    decreases |remaining|
  {
    if |remaining| == 0 then []
    else
      var k := NearestIndex(current, remaining, dist);
      var f := remaining[k];
      [Leg(current, f, mode, dist)] + Greedy(f.Position(), Without(remaining, k), mode, dist)
  }

  /** One step of the planner: the nearest falla first, then the plan for the rest. */
  lemma {:induction false} GreedyStep(current: Coord, remaining: seq<Falla>, mode: TransportMode, dist: Distance)
    returns (k: nat, f: Falla, rest: seq<RouteStop>)
    requires |remaining| > 0
    ensures k == NearestIndex(current, remaining, dist) && f == remaining[k]
    ensures rest == Greedy(f.Position(), Without(remaining, k), mode, dist)
    ensures Greedy(current, remaining, mode, dist) == [Leg(current, f, mode, dist)] + rest
  {
    k := NearestIndex(current, remaining, dist);
    f := remaining[k];
    rest := Greedy(f.Position(), Without(remaining, k), mode, dist);
  }

  lemma {:induction false} StopFallasCons(s: RouteStop, rest: seq<RouteStop>)
    ensures StopFallas([s] + rest) == [s.falla] + StopFallas(rest)
  {
  }

  /** The fallas the planner picks, in order: the greedy route without its legs. */
  function Order(current: Coord, remaining: seq<Falla>, dist: Distance): (r: seq<Falla>)
    ensures |r| == |remaining|
    decreases |remaining|
  {
    if |remaining| == 0 then []
    else
      var k := NearestIndex(current, remaining, dist);
      var f := remaining[k];
      [f] + Order(f.Position(), Without(remaining, k), dist)
  }

  /** The stops of the planned route are the picks, in order. */
  lemma {:induction false} GreedyFollowsOrder(current: Coord, remaining: seq<Falla>, mode: TransportMode, dist: Distance)
    ensures StopFallas(Greedy(current, remaining, mode, dist)) == Order(current, remaining, dist)
    decreases |remaining|
  {
    if |remaining| > 0 {
      var k, f, rest := GreedyStep(current, remaining, mode, dist);
      GreedyFollowsOrder(f.Position(), Without(remaining, k), mode, dist);
      StopFallasCons(Leg(current, f, mode, dist), rest);
    }
  }

  /** The picks are the input, reordered. */
  lemma {:induction false} OrderPermutation(current: Coord, remaining: seq<Falla>, dist: Distance)
    ensures multiset(Order(current, remaining, dist)) == multiset(remaining)
    decreases |remaining|
  {
    if |remaining| > 0 {
      var k := NearestIndex(current, remaining, dist);
      var f := remaining[k];
      var rem := Without(remaining, k);
      OrderPermutation(f.Position(), rem, dist);
      assert Order(current, remaining, dist) == [f] + Order(f.Position(), rem, dist);
    }
  }

  /** The planned route visits every falla of the input exactly as often as it occurs there. */
  lemma {:induction false} GreedyPermutation(current: Coord, remaining: seq<Falla>, mode: TransportMode, dist: Distance)
    ensures multiset(StopFallas(Greedy(current, remaining, mode, dist))) == multiset(remaining)
  {
    GreedyFollowsOrder(current, remaining, mode, dist);
    OrderPermutation(current, remaining, dist);
  }

  /** The point a stop is reached from: the start for the first stop, else the previous stop. */
  function Previous(start: Coord, r: seq<RouteStop>, k: nat): Coord
    requires k < |r|
  {
    if k == 0 then start else r[k - 1].falla.Position()
  }

  /**
   * Every stop records the leg that reaches it: the distance from the
   * previous point and the estimated time to cover it in the chosen mode.
   */
  lemma {:induction false} GreedyLegs(start: Coord, remaining: seq<Falla>, mode: TransportMode, dist: Distance)
    ensures var r := Greedy(start, remaining, mode, dist);
      forall k :: 0 <= k < |r| ==>
        r[k] == Leg(Previous(start, r, k), r[k].falla, mode, dist)
  {
    var r := Greedy(start, remaining, mode, dist);
    forall k | 0 <= k < |r|
      ensures r[k] == Leg(Previous(start, r, k), r[k].falla, mode, dist)
    {
      LegAt(start, remaining, mode, dist, k);
    }
  }

  /** Stop k of the plan records the leg from the point it is reached from. */
  lemma {:induction false} LegAt(start: Coord, remaining: seq<Falla>, mode: TransportMode, dist: Distance, k: nat)
    requires k < |remaining|
    ensures var r := Greedy(start, remaining, mode, dist);
      r[k] == Leg(Previous(start, r, k), r[k].falla, mode, dist)
    decreases |remaining|
  {
    var r := Greedy(start, remaining, mode, dist);
    var i, f, rest := GreedyStep(start, remaining, mode, dist);
    if k > 0 {
      LegAt(f.Position(), Without(remaining, i), mode, dist, k - 1);
      assert r[k] == rest[k - 1];
      assert Previous(start, r, k) == Previous(f.Position(), rest, k - 1);
    }
  }

  /** The point pick k is reached from: the start for the first pick, else the pick before. */
  function From(start: Coord, order: seq<Falla>, k: nat): Coord
    requires k < |order|
  {
    if k == 0 then start else order[k - 1].Position()
  }

  /** Pick k is at least as close to the point it is reached from as pick j, for k <= j. */
  lemma {:induction false} OrderNearest(start: Coord, remaining: seq<Falla>, dist: Distance, k: nat, j: nat)
    requires k <= j < |remaining|
    ensures var o := Order(start, remaining, dist);
      dist(From(start, o, k), o[k].Position()) <= dist(From(start, o, k), o[j].Position())
    decreases |remaining|
  {
    var o := Order(start, remaining, dist);
    var i := NearestIndex(start, remaining, dist);
    var f := remaining[i];
    var rem := Without(remaining, i);
    var rest := Order(f.Position(), rem, dist);
    assert o == [f] + rest;
    if k == 0 {
      OrderPermutation(start, remaining, dist);
      assert o[j] in multiset(o);
      var m :| 0 <= m < |remaining| && remaining[m] == o[j];
    } else {
      OrderNearest(f.Position(), rem, dist, k - 1, j - 1);
      assert From(start, o, k) == From(f.Position(), rest, k - 1);
    }
  }

  /**
   * Every pick is nearest: from the point it is reached from, no stop visited
   * later is strictly closer.
   */
  lemma {:induction false} GreedyNearest(start: Coord, remaining: seq<Falla>, mode: TransportMode, dist: Distance)
    ensures var r := Greedy(start, remaining, mode, dist);
      forall k, j :: 0 <= k <= j < |r| ==>
        dist(Previous(start, r, k), r[k].falla.Position()) <= dist(Previous(start, r, k), r[j].falla.Position())
  {
    var r := Greedy(start, remaining, mode, dist);
    var o := Order(start, remaining, dist);
    GreedyFollowsOrder(start, remaining, mode, dist);
    forall k, j | 0 <= k <= j < |r|
      ensures dist(Previous(start, r, k), r[k].falla.Position()) <= dist(Previous(start, r, k), r[j].falla.Position())
    {
      OrderNearest(start, remaining, dist, k, j);
      assert r[k].falla == o[k] && r[j].falla == o[j];
      assert Previous(start, r, k) == From(start, o, k);
    }
  }

  /** The first pick breaks ties towards the earliest falla of the input. */
  lemma {:induction false} FirstPickTieBreak(start: Coord, locations: seq<Falla>, mode: TransportMode, dist: Distance, j: nat)
    requires |locations| > 0 && j < |locations|
    requires dist(start, locations[j].Position()) <= dist(start, Greedy(start, locations, mode, dist)[0].falla.Position())
    ensures exists i :: 0 <= i <= j && locations[i] == Greedy(start, locations, mode, dist)[0].falla
  {
    var k, f, rest := GreedyStep(start, locations, mode, dist);
  }

  /**
   * optimizeRoute: repeatedly splices the nearest remaining falla out of a
   * copy of the input and appends it with its leg.
   */
  method OptimizeRoute(locations: seq<Falla>, startLocation: Coord, mode: TransportMode, dist: Distance)
    returns (optimized: seq<RouteStop>)
    ensures optimized == Greedy(startLocation, locations, mode, dist)
  {
    if |locations| == 0 {
      return [];
    }
    ghost var target := Greedy(startLocation, locations, mode, dist);
    optimized := [];
    var remaining := locations;
    var current := startLocation;
    assert optimized + Greedy(current, remaining, mode, dist) == target;
    while |remaining| > 0
      invariant optimized + Greedy(current, remaining, mode, dist) == target
      decreases |remaining|
    {
      var nearestIndex, minDistance := FindNearest(current, remaining, dist);
      Advance(optimized, current, remaining, mode, dist, target, nearestIndex, minDistance);
      var nearest := remaining[nearestIndex];
      remaining := remaining[..nearestIndex] + remaining[nearestIndex + 1..];
      var estimatedTime := CalculateEstimatedTime(minDistance, mode);
      optimized := optimized + [RouteStop(nearest, Some(minDistance), Some(estimatedTime))];
      current := nearest.Position();
    }
    assert optimized + [] == optimized;
  }

  /** One iteration of optimizeRoute's outer loop keeps the plan still to come. */
  lemma {:induction false} Advance(optimized: seq<RouteStop>, current: Coord, remaining: seq<Falla>, mode: TransportMode,
                dist: Distance, target: seq<RouteStop>, k: nat, d: real)
    requires |remaining| > 0
    requires k == NearestIndex(current, remaining, dist) && d == dist(current, remaining[k].Position())
    requires optimized + Greedy(current, remaining, mode, dist) == target
    ensures (optimized + [RouteStop(remaining[k], Some(d), Some(CalculateEstimatedTime(d, mode)))])
        + Greedy(remaining[k].Position(), remaining[..k] + remaining[k + 1..], mode, dist) == target
  {
    var k', f, rest := GreedyStep(current, remaining, mode, dist);
    assert Without(remaining, k) == remaining[..k] + remaining[k + 1..];
    assert Leg(current, f, mode, dist) == RouteStop(remaining[k], Some(d), Some(CalculateEstimatedTime(d, mode)));
    AppendStop(optimized, Leg(current, f, mode, dist), rest);
  }

  /** Moving the next stop from the plan onto the route built so far. */
  lemma {:induction false} AppendStop(optimized: seq<RouteStop>, leg: RouteStop, rest: seq<RouteStop>)
    ensures optimized + ([leg] + rest) == (optimized + [leg]) + rest
  {
  }

  /**
   * The forEach of optimizeRoute: a strict `<` against a minimum that starts
   * at Infinity (here None) keeps the first of equally near fallas.
   */
  method FindNearest(current: Coord, remaining: seq<Falla>, dist: Distance)
    returns (nearestIndex: nat, minDistance: real)
    requires |remaining| > 0
    ensures nearestIndex == NearestIndex(current, remaining, dist)
    ensures minDistance == dist(current, remaining[nearestIndex].Position())
  {
    nearestIndex := 0;
    var best: Option<real> := None;
    var index := 0;
    while index < |remaining|
      invariant 0 <= index <= |remaining|
      invariant index == 0 <==> best.None?
      invariant index > 0 ==> nearestIndex == NearestIndex(current, remaining[..index], dist)
      invariant index > 0 ==> best == Some(dist(current, remaining[nearestIndex].Position()))
    {
      var distance := dist(current, remaining[index].Position());
      if best.None? || distance < best.value {
        best := Some(distance);
        nearestIndex := index;
      }
      assert remaining[..index + 1][..index] == remaining[..index];
      index := index + 1;
    }
    assert remaining[..index] == remaining;
    minDistance := best.value;
  }

  /** The sum of the recorded leg distances, a missing leg counting as 0. */
  function SumDistance(route: seq<RouteStop>): (r: real)
    ensures (forall k :: 0 <= k < |route| ==> LegDistance(route[k]) >= 0.0) ==> r >= 0.0
    decreases |route|
  {
    if |route| == 0 then 0.0 else SumDistance(route[..|route| - 1]) + LegDistance(route[|route| - 1])
  }

  /** The sum of the recorded leg times, a missing leg counting as 0. */
  function SumTime(route: seq<RouteStop>): (r: int)
    ensures (forall k :: 0 <= k < |route| ==> LegTime(route[k]) >= 0) ==> r >= 0
    decreases |route|
  {
    if |route| == 0 then 0 else SumTime(route[..|route| - 1]) + LegTime(route[|route| - 1])
  }

  /** Leg sums add up over concatenation. */
  lemma {:induction false} SumsConcat(a: seq<RouteStop>, b: seq<RouteStop>)
    ensures SumDistance(a + b) == SumDistance(a) + SumDistance(b)
    ensures SumTime(a + b) == SumTime(a) + SumTime(b)
    decreases |b|
  {
    if |b| == 0 {
      assert a + b == a;
    } else {
      assert (a + b)[..|a + b| - 1] == a + b[..|b| - 1];
      SumsConcat(a, b[..|b| - 1]);
    }
  }

  /** A planned route's totals are never negative. */
  lemma {:induction false} GreedySumsNonNegative(start: Coord, remaining: seq<Falla>, mode: TransportMode, dist: Distance)
    ensures SumDistance(Greedy(start, remaining, mode, dist)) >= 0.0
    ensures SumTime(Greedy(start, remaining, mode, dist)) >= 0
    decreases |remaining|
  {
    if |remaining| > 0 {
      var i, f, rest := GreedyStep(start, remaining, mode, dist);
      GreedySumsNonNegative(f.Position(), Without(remaining, i), mode, dist);
      var leg := Leg(start, f, mode, dist);
      SumsConcat([leg], rest);
      assert SumDistance([leg]) == LegDistance(leg);
      assert SumTime([leg]) == LegTime(leg);
    }
  }

  /** formatTime: "{h}h {m}min" from one hour on, else "{m}min" with no space. */
  function FormatTime(minutes: int): (r: string)
    ensures minutes >= 60 ==> exists h: nat, rest: nat ::
      h >= 1 && rest < 60 && minutes == 60 * h + rest &&
      r == NatToString(h) + "h " + NatToString(rest) + "min"
    ensures 0 <= minutes < 60 ==> r == NatToString(minutes) + "min"
  {
    var hours := minutes / 60;
    var mins := Rem(minutes, 60);
    if hours > 0 then
      assert minutes == 60 * hours + mins;
      IntToString(hours) + "h " + IntToString(mins) + "min"
    else IntToString(mins) + "min"
  }

  /** The route planner and the transport-mode formatter disagree below an hour. */
  lemma {:induction false} FormatTimeDiffersFromEstimate(minutes: int)
    requires 0 <= minutes < 60
    ensures FormatTime(minutes) != FormatEstimatedTime(minutes)
  {
    var a := FormatTime(minutes);
    var b := FormatEstimatedTime(minutes);
    var n := |NatToString(minutes)|;
    assert a[n] == 'm' && b[n] == ' ';
  }

  /** getRouteStats */
  method GetRouteStats(route: seq<RouteStop>) returns (stats: RouteStats)
    ensures stats.totalStops == |route|
    ensures stats.totalDistance == ToFixed2(SumDistance(route))
    ensures stats.totalTime == SumTime(route)
    ensures stats.estimatedDuration == FormatTime(SumTime(route))
  {
    var totalDistance := 0.0;
    var totalTime := 0;
    var i := 0;
    while i < |route|
      invariant 0 <= i <= |route|
      invariant totalDistance == SumDistance(route[..i])
      invariant totalTime == SumTime(route[..i])
    {
      assert route[..i + 1][..i] == route[..i];
      totalDistance := totalDistance + LegDistance(route[i]);
      totalTime := totalTime + LegTime(route[i]);
      i := i + 1;
    }
    assert route[..i] == route;
    stats := RouteStats(|route|, ToFixed2(totalDistance), totalTime, FormatTime(totalTime));
  }
}
