/**
 * The calendar widget: the day selector, the hour slider and the switch
 * between the real clock and manual exploration. The widget keeps the
 * current real hour, refreshed every minute from the system clock; the
 * selected day, hour and clock mode live in the application store.
 */
module CalendarWidget {
  import opened Wrappers
  import opened Text
  import opened AppStore
  import opened EventsData

  /** The hour the widget shows: the real hour in real mode, the slider's otherwise. */
  function DisplayHour(mode: ClockMode, realHour: int, selectedHour: int): (h: int)
    ensures mode == Real ==> h == realHour
    ensures mode == Manual ==> h == selectedHour
  {
    if mode == Real then realHour else selectedHour
  }

  /** Day time runs from 7:00 to 19:59. */
  predicate IsDayTime(hour: int) {
    7 <= hour < 20
  }

  /** The label next to the hour. */
  function TimeOfDayLabel(hour: int): (caption: string)
    ensures caption == "D\U{CD}A" <==> IsDayTime(hour)
    ensures caption == "NOCHE" <==> !IsDayTime(hour)
  {
    if IsDayTime(hour) then "D\U{CD}A" else "NOCHE"
  }

  /** The month next to the day: the two February days of the programme fall in 22..28. */
  function MonthLabel(day: int): (caption: string)
    ensures caption == "FEB" <==> 22 <= day <= 28
    ensures caption == "MAR" <==> !(22 <= day <= 28)
  {
    if day <= 28 && day >= 22 then "FEB" else "MAR"
  }

  /** The days the selector offers, in its order: two in February, then 1 to 19 March. */
  const DayOptions: seq<int> := [22, 28, 1, 2, 3, 4, 5, 6, 7, 8, 9, 10, 11, 12, 13, 14, 15, 16, 17, 18, 19]

  /**
   * The selector offers exactly the days of the programme, and the month
   * label agrees with the group each option sits in.
   */
  lemma {:induction false} DayOptionsAreEventDays(day: int)
    ensures day in DayOptions <==> day in Events
    ensures day in DayOptions ==> (MonthLabel(day) == "FEB" <==> day in DayOptions[..2])
  {
    DayOptionDays(day);
    EventDays(day);
  }

  /** The options are 22 and 28 February, then 1 to 19 March. */
  lemma {:induction false} DayOptionDays(day: int)
    ensures day in DayOptions <==> (1 <= day <= 19 || day == 22 || day == 28)
    ensures day in DayOptions[..2] <==> (day == 22 || day == 28)
  {
    assert DayOptions[..2] == [22, 28];
  }

  /** The event line under the date: the description of the day's event, if any. */
  function EventIndicator(day: int): (text: Option<string>)
    ensures text.Some? <==> day in Events
    ensures text.Some? ==> text.value == Events[day].description
  {
    if day in Events then Some(Events[day].description) else None
  }

  /** `s.padStart(2, '0')` */
  function PadStart2(s: string): (r: string)
    ensures |r| == if |s| < 2 then 2 else |s|
    ensures EndsWith(r, s)
  {
    if |s| == 0 then "00" else if |s| == 1 then "0" + s else s
  }

  /** `` `${displayHour.toString().padStart(2, '0')}:00` `` */
  function HourText(hour: int): string {
    PadStart2(IntToString(hour)) + ":00"
  }

  /** Every hour of the slider reads as five characters, and parses back to itself. */
  lemma {:induction false} HourTextRoundTrip(hour: int)
    requires 0 <= hour <= 23
    ensures |HourText(hour)| == 5
    ensures ParseInt(HourText(hour)) == Some(hour)
  {
    var digits := NatToString(hour);
    assert IntToString(hour) == digits;
    if hour < 10 {
      var two := "0" + digits;
      assert AllDigits(two);
      assert HourText(hour) == two + ":00";
      LeadingDigitsOfConcat(two, ":00");
      assert two[..1] == "0" && two[1] == DigitChar(hour);
      assert "0"[..0] == "";
      assert DigitsValue("0") == 0;
      assert DigitsValue(two) == DigitsValue(two[..1]) * 10 + (two[1] as int - '0' as int);
      assert !IsWhiteSpace((two + ":00")[0]);
    } else {
      NatToStringTwoDigits(hour);
      assert HourText(hour) == digits + ":00";
      ParseIntNatToString(hour, ":00");
    }
  }

  /** Hours from 10 to 23 have two digits. */
  lemma {:induction false} NatToStringTwoDigits(hour: nat)
    requires 10 <= hour <= 23
    ensures |NatToString(hour)| == 2
  {
    assert NatToString(hour) == NatToString(hour / 10) + [DigitChar(hour % 10)];
  }

  /** The widget's own state: the real hour of the system clock. */
  class Calendar {
    var realHour: int
    const store: AppStore

    constructor(store: AppStore, clockHour: int)
      requires 0 <= clockHour <= 23
      ensures this.store == store && realHour == clockHour
    {
      this.store := store;
      realHour := clockHour;
    }

    /** The hour the widget shows. */
    function Shown(): (h: int)
      reads this, store
    {
      DisplayHour(store.clockMode, realHour, store.selectedHour)
    }

    /** The minute interval reads the system clock again. */
    method ClockTick(clockHour: int)
      requires 0 <= clockHour <= 23
      modifies this
      ensures realHour == clockHour
    {
      realHour := clockHour;
    }

    /** `handleDayChange` */
    method DayChange(day: int)
      modifies store
      ensures store.State() == old(store.State()).(selectedDay := day)
    {
      store.SetSelectedDay(day);
    }

    /** `handleHourChange`: moving the slider sets the hour and leaves real mode. */
    method HourChange(hour: int)
      modifies store
      ensures store.State() == old(store.State()).(selectedHour := hour, clockMode := Manual)
      ensures Shown() == hour
    {
      store.SetSelectedHour(hour);
      if store.clockMode == Real {
        store.SetClockMode(Manual);
      }
    }

    /**
     * `handleModeToggle`: from real to manual the slider keeps its hour, so
     * the shown hour becomes the slider's; from manual to real the slider
     * jumps to the real hour, so the shown hour is the real one.
     */
    method ModeToggle()
      modifies store
      ensures old(store.clockMode) == Real ==> store.State() == old(store.State()).(clockMode := Manual)
      ensures old(store.clockMode) == Manual ==> store.State() == old(store.State()).(clockMode := Real, selectedHour := realHour)
      ensures store.clockMode == Real ==> Shown() == store.selectedHour
    {
      var newMode := if store.clockMode == Real then Manual else Real;
      store.SetClockMode(newMode);
      if newMode == Real {
        store.SetSelectedHour(realHour);
      }
    }

    /** The 'Hora Real' button: real mode, with the slider on the real hour. */
    method RealButton()
      modifies store
      ensures store.State() == old(store.State()).(clockMode := Real, selectedHour := realHour)
      ensures Shown() == realHour
    {
      store.SetClockMode(Real);
      store.SetSelectedHour(realHour);
    }

    /** The 'Exploración' button: manual mode, the slider's hour untouched. */
    method ExploreButton()
      modifies store
      ensures store.State() == old(store.State()).(clockMode := Manual)
      ensures Shown() == store.selectedHour
    {
      store.SetClockMode(Manual);
    }
  }
}
