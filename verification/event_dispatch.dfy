/**
 * The decision the map takes each time the selected day or hour changes:
 * look up the day's event and, from its animation tag and the hour, either
 * trigger one animation or clear them all.
 */
module EventDispatch {
  import opened Wrappers
  import opened Types
  import opened EventsData
  import EventAnimations

  /** What the effect does: clear the animations, or trigger one (with an hour for the ofrenda). */
  datatype Action = Clear | Trigger(kind: AnimationType, hour: Option<int>)

  /** The switch on the event's tag. */
  function Decide(event: Option<EventData>, hour: int): (a: Action)
    ensures event.None? ==> a == Clear
    ensures event.Some? && event.value.animation == "cabalgata" ==>
      (a == Trigger(Cabalgata, None) <==> hour >= 20) && (a == Clear <==> hour < 20)
    ensures event.Some? && event.value.animation == "ofrenda" ==>
      (a.Trigger? <==> hour >= 16) && (a.Trigger? ==> a == Trigger(Ofrenda, Some(if hour > 23 then 24 else hour)))
    ensures event.Some? && event.value.animation == "mascletà" ==>
      (a == Trigger(Mascleta, None) <==> hour == 14) && (a == Clear <==> hour != 14)
    ensures event.Some? && event.value.animation == "cremà" ==>
      (a == Trigger(Crema, None) <==> hour >= 22) && (a == Clear <==> hour < 22)
    ensures event.Some? && !(event.value.animation in {"cabalgata", "ofrenda", "mascletà", "cremà"}) ==>
      a == Clear
  {
    match event
    case None => Clear
    case Some(e) =>
      if e.animation == "cabalgata" then
        (if hour >= 20 then Trigger(Cabalgata, None) else Clear)
      else if e.animation == "ofrenda" then
        (if 16 <= hour <= 23 then Trigger(Ofrenda, Some(hour))
         else if hour > 23 then Trigger(Ofrenda, Some(24))
         else Clear)
      else if e.animation == "mascletà" then
        (if hour == 14 then Trigger(Mascleta, None) else Clear)
      else if e.animation == "cremà" then
        (if hour >= 22 then Trigger(Crema, None) else Clear)
      else Clear
  }

  /** `eventsData[selectedDay]`, where a missing day is no event. */
  function EventOf(day: int): Option<EventData> {
    if day in Events then Some(Events[day]) else None
  }

  /** The effect's decision for the selected day and hour: a day without an event clears. */
  function DispatchFor(day: int, hour: int): (a: Action)
    ensures day !in Events ==> a == Clear
  {
    Decide(EventOf(day), hour)
  }

  /** The ofrenda passes the selected hour within 16..23 and 24 after it. */
  lemma {:induction false} OfrendaHourPassed(hour: int)
    ensures 16 <= hour <= 23 ==> DispatchFor(17, hour) == Trigger(Ofrenda, Some(hour))
    ensures hour > 23 ==> DispatchFor(17, hour) == Trigger(Ofrenda, Some(24))
    ensures DispatchFor(17, hour) == DispatchFor(18, hour)
  {
  }

  /**
   * The decision day by day: mascletà at 14h from the 1st to the 16th of
   * March, the ofrenda from 16h on the 17th and 18th, the cremà from 22h on
   * the 19th, the cabalgata from 20h on 28 February, and nothing on
   * 22 February or on a day without an event.
   */
  lemma {:induction false} DispatchByDay(day: int, hour: int)
    ensures 1 <= day <= 16 ==> DispatchFor(day, hour) == if hour == 14 then Trigger(Mascleta, None) else Clear
    ensures (day == 17 || day == 18) ==> (DispatchFor(day, hour).Trigger? <==> hour >= 16)
    ensures day == 19 ==> DispatchFor(day, hour) == if hour >= 22 then Trigger(Crema, None) else Clear
    ensures day == 28 ==> DispatchFor(day, hour) == if hour >= 20 then Trigger(Cabalgata, None) else Clear
    ensures day == 22 ==> DispatchFor(day, hour) == Clear
    ensures !(1 <= day <= 19 || day == 22 || day == 28) ==> DispatchFor(day, hour) == Clear
  {
    EventDays(day);
    if day in Events {
      EventTags(day);
    }
  }

  /**
   * Through this effect the ofrenda never reaches the `|| 16` default: the
   * hour it passes is never 0, so the service draws the progress of that
   * very hour.
   */
  lemma {:induction false} OfrendaHourNeverDefaulted(day: int, hour: int)
    requires DispatchFor(day, hour).Trigger? && DispatchFor(day, hour).kind == Ofrenda
    ensures EventAnimations.OfrendaHour(DispatchFor(day, hour).hour) == DispatchFor(day, hour).hour.value
    ensures 16 <= DispatchFor(day, hour).hour.value <= 24
  {
  }

  /** The second effect of the hook: runs the decision on the service. */
  method RunEffect(service: EventAnimations.EventAnimationService, day: int, hour: int)
    requires service.Valid()
    modifies service
    ensures service.Valid()
    ensures DispatchFor(day, hour) == Clear ==> service.State() == EventAnimations.Cleared(old(service.State()))
    ensures DispatchFor(day, hour).Trigger? ==>
      service.State() == EventAnimations.Triggered(old(service.State()), DispatchFor(day, hour).kind, DispatchFor(day, hour).hour)
    ensures DispatchFor(day, hour).Trigger? && old(service.leafletMap).Some? ==>
      service.pendingTimeouts == old(service.pendingTimeouts)
        + EventAnimations.Scheduled(DispatchFor(day, hour).kind, DispatchFor(day, hour).hour)
  {
    var action := DispatchFor(day, hour);
    match action
    case Clear => service.ClearAnimations();
    case Trigger(kind, h) => service.TriggerAnimation(kind, h);
  }
}
