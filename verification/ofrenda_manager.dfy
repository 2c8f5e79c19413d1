/**
 * The flower offering: when its two processions are drawn and how full the
 * Virgin's flower mantle is, over the selected day of March and the hour in
 * use (0..23 from the slider or the system clock).
 */
module OfrendaManager {
  import opened Wrappers
  import opened CabalgataRoutes

  /** isRoutesActive: 17 March from 15h, and 18 March up to 1h and again from 15h. */
  function IsRoutesActive(day: int, hour: int): (r: bool)
    ensures day != 17 && day != 18 ==> !r
    ensures day == 17 ==> (r <==> hour >= 15)
    ensures day == 18 ==> (r <==> hour <= 1 || hour >= 15)
  {
    if day != 17 && day != 18 then false
    else if day == 17 then hour >= 15
    else if day == 18 then hour <= 1 || hour >= 15
    else false
  }

  /**
   * The processions are drawn exactly while the offering routes' own
   * schedule runs: on a day of their range, from the start hour on, or on a
   * later day up to the end hour past midnight.
   */
  lemma {:induction false} RoutesActiveFollowsRouteSchedule(key: string, day: int, hour: int)
    requires IsOfrendaKey(key)
    ensures key in Routes
    ensures var route := Routes[key];
      IsRoutesActive(day, hour) <==>
        route.dateRange.Some? && day in route.dateRange.value &&
        (hour >= route.startHour || (day > route.date && hour <= route.endHour))
  {
    OfrendaRoutesWrapAndMeet(key);
  }

  /** showVirgen */
  function ShowVirgen(day: int): (r: bool)
    ensures r <==> day >= 17
  {
    day >= 17
  }

  const FillRate: real := 50.0 / 9.5

  function Min(a: real, b: real): real {
    if a <= b then a else b
  }

  /** virgenFillPercentage */
  function VirgenFillPercentage(day: int, hour: int): (p: real)
    ensures p <= 100.0
    ensures hour >= 0 ==> p >= 0.0
    ensures day < 17 ==> p == 0.0
    ensures day == 17 && hour < 15 ==> p == 0.0
    ensures day == 17 && hour >= 15 ==> p == Min(50.0, (hour - 15) as real * FillRate)
    ensures day == 17 && 15 <= hour <= 23 ==> p == (hour - 15) as real * FillRate && p < 50.0
    ensures day == 18 && hour <= 1 && hour >= 0 ==> p == 50.0
    ensures day == 18 && 2 <= hour < 15 ==> p == 50.0
    ensures day == 18 && hour >= 15 ==> p == Min(100.0, 50.0 + (hour - 15) as real * FillRate)
    ensures day >= 19 ==> p == 100.0
  {
    if day < 17 then 0.0
    else if day == 17 then
      if hour < 15 then 0.0
      else
        var hoursSinceStart := if hour >= 15 then hour - 15 else 0;
        Min(50.0, hoursSinceStart as real * FillRate)
    else if day == 18 then
      if hour <= 1 then
        var hoursSinceStart := 9.5 + hour as real;
        Min(50.0, hoursSinceStart * FillRate)
      else if hour < 15 then 50.0
      else
        var hoursSinceStart := hour - 15;
        Min(100.0, 50.0 + hoursSinceStart as real * FillRate)
    else 100.0
  }

  /** At 23h on 17 March the mantle is 400/9.5, about 42 %, full: the half is reached only at midnight. */
  lemma {:induction false} FillAtMidnightOfThe17th()
    ensures VirgenFillPercentage(17, 23) == 400.0 / 9.5
    ensures VirgenFillPercentage(17, 23) < 50.0
  {
  }

  /** Position of (day, hour) on the clock, in hours. */
  function Chronological(day: int, hour: int): int {
    day * 24 + hour
  }

  /** Through the days 16 to 19, the mantle never loses flowers as time goes on. */
  lemma {:induction false} FillNonDecreasing(d1: int, h1: int, d2: int, h2: int)
    requires 16 <= d1 <= 19 && 16 <= d2 <= 19
    requires 0 <= h1 <= 23 && 0 <= h2 <= 23
    requires Chronological(d1, h1) <= Chronological(d2, h2)
    ensures VirgenFillPercentage(d1, h1) <= VirgenFillPercentage(d2, h2)
  {
    assert d1 <= d2;
    if d1 == d2 && d1 == 17 && h1 >= 15 {
      assert (h1 - 15) as real * FillRate <= (h2 - 15) as real * FillRate;
    }
    if d1 == d2 && d1 == 18 && h1 >= 15 {
      assert (h1 - 15) as real * FillRate <= (h2 - 15) as real * FillRate;
    }
  }
}
