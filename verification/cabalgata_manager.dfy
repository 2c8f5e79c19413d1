/** When the two parades are drawn: a test of the selected day and the hour in use. */
module CabalgataManager {
  import opened CabalgataRoutes
  import opened AppStore

  // The hour in use, the system clock's in real-time mode and the slider's
  // otherwise, is the calendar's CalendarWidget.DisplayHour.

  /** A route is running on its own day between its start and end hour, both included. */
  predicate RunsAt(route: CabalgataRoute, day: int, hour: int) {
    day == route.date && hour >= route.startHour && hour <= route.endHour
  }

  /** isNinotActive */
  function IsNinotActive(day: int, hour: int): (r: bool)
    ensures r <==> day == 28 && 17 <= hour <= 20
  {
    RunsAt(Routes["ninot"], day, hour)
  }

  /** isFuegoActive */
  function IsFuegoActive(day: int, hour: int): (r: bool)
    ensures r <==> day == 19 && 19 <= hour <= 20
  {
    RunsAt(Routes["fuego"], day, hour)
  }

  /** The two parades fall on different days and never run together. */
  lemma {:induction false} NeverBothActive(day: int, hour: int)
    ensures !(IsNinotActive(day, hour) && IsFuegoActive(day, hour))
  {
  }
}
