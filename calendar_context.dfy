/** The calendar's store (`CalendarProvider`, src/context/CalendarContext.tsx):
    two date cursors and the list of events. The only change to the list
    is appending. "Today" is a parameter. */
module CalendarContext {
  import opened Wrappers
  import opened Text
  import opened Dates
  import opened Types

  /** The seed events, in order: how many days after today each falls, its
      title and its time range. Their ids are "1" to "4". */
  const SeedOffsets: seq<nat> := [0, 1, 3, 15]
  const SeedTitles: seq<string> := [
    "Work Time", "Coffee Time at Frozen Coffee Shop", "Product Design Congress",
    "Fishing with family"]
  const SeedTimes: seq<string> := [
    "09:00 - 15:30", "19:00 - 10:00", "12:00 - 14:00", "06:00 - 10:00"]

  /** The `i`-th seed event: id `i + 1`, dated `SeedOffsets[i]` days after
      today, no description. */
  function SeedEvent(today: Date, i: nat): (e: CalendarEvent)
    requires i < 4
    ensures e.id == NatToString(i + 1) && e.title == SeedTitles[i]
    ensures e.date == Format(AddDays(today, SeedOffsets[i]))
    ensures e.description.None? && e.time == Some(SeedTimes[i])
  {
    CalendarEvent(NatToString(i + 1), SeedTitles[i], Format(AddDays(today, SeedOffsets[i])),
      None, Some(SeedTimes[i]))
  }

  /** The events the provider starts with. */
  function InitialEvents(today: Date): (r: seq<CalendarEvent>)
    ensures |r| == |SeedOffsets|
    ensures forall i :: 0 <= i < |r| ==> r[i] == SeedEvent(today, i)
  {
    seq(4, i requires 0 <= i < 4 => SeedEvent(today, i))
  }

  /** The seed ids are pairwise distinct. */
  lemma InitialEventIdsDistinct(today: Date, i: nat, j: nat)
    requires i < j < 4
    ensures InitialEvents(today)[i].id != InitialEvents(today)[j].id
  {
    if InitialEvents(today)[i].id == InitialEvents(today)[j].id {
      NatToStringInjective(i + 1, j + 1);
    }
  }

  /** Read back as dates, the seed dates are today, today + 1, today + 3 and
      today + 15 (for a four-digit year, as every date in use has). */
  lemma InitialEventDates(today: Date, i: nat)
    requires 0 <= today.year && today.year + 1 <= 9999 && i < 4
    ensures ParseDate(InitialEvents(today)[i].date).Some?
    ensures DayNumber(ParseDate(InitialEvents(today)[i].date).value) == DayNumber(today) + SeedOffsets[i]
  {
    var d := AddDays(today, SeedOffsets[i]);
    AddDaysNumber(today, SeedOffsets[i]);
    DayOfYearBounds(d);
    DayOfYearBounds(today);
    assert d.year <= today.year + 1 by {
      if d.year > today.year + 1 {
        YearsBefore(today.year, today.year + 1);
        YearStep(today.year + 1);
        YearsBefore(today.year + 1, d.year);
      }
    }
    assert d.year >= today.year by {
      if d.year < today.year {
        YearsBefore(d.year, today.year);
      }
    }
    ParseFormat(d);
  }

  class CalendarStore {
    /** The viewed month (any day in it). */
    var currentDate: Date
    /** The day whose events the day panel lists. */
    var selectedDate: Date
    var events: seq<CalendarEvent>

    constructor (today: Date)
      ensures currentDate == today && selectedDate == today
      ensures events == InitialEvents(today)
    {
      var seed := InitialEvents(today);
      currentDate, selectedDate, events := today, today, seed;
    }

    /** `setCurrentDate`: replaces the viewed date and nothing else. */
    method SetCurrentDate(d: Date)
      modifies this`currentDate
      ensures currentDate == d
      ensures selectedDate == old(selectedDate) && events == old(events)
    {
      currentDate := d;
    }

    /** `setSelectedDate`: replaces the selected day and nothing else. */
    method SetSelectedDate(d: Date)
      modifies this`selectedDate
      ensures selectedDate == d
      ensures currentDate == old(currentDate) && events == old(events)
    {
      selectedDate := d;
    }

    /** `addEvent`: appends, with no check of the id. */
    method AddEvent(e: CalendarEvent)
      modifies this`events
      ensures events == old(events) + [e]
      ensures |events| == |old(events)| + 1 && events[..|old(events)|] == old(events)
      ensures currentDate == old(currentDate) && selectedDate == old(selectedDate)
    {
      events := events + [e];
    }
  }

  const OutsideProvider := "useCalendar must be used within a CalendarProvider"

  /** `useCalendar()`: the enclosing provider's store, or the error it
      throws when there is none. */
  function UseCalendar(context: Option<CalendarStore>): (r: Result<CalendarStore, string>)
    ensures r.Failure? <==> context.None?
    ensures r.Failure? ==> r.error == OutsideProvider
    ensures r.Success? ==> r.value == context.value
  {
    match context
    case None => Failure(OutsideProvider)
    case Some(store) => Success(store)
  }
}
