/** The sidebar (src/components/Sidebar/Sidebar.tsx): the viewed year with
    previous and next buttons, and the twelve months, each with its event
    count for the viewed year; the viewed month is marked active. */
module Sidebar {
  import opened Wrappers
  import opened Dates
  import opened Types
  import opened Seqs
  import opened CalendarContext

  const Months: seq<string> := [
    "January", "February", "March", "April", "May", "June",
    "July", "August", "September", "October", "November", "December"]

  /** The event's date read as a date; year and month come straight from
      the string (no time zone shift). */
  predicate InYear(e: CalendarEvent, year: int) {
    ParseDate(e.date).Some? && ParseDate(e.date).value.year == year
  }

  predicate InMonth(e: CalendarEvent, year: int, monthIndex: int) {
    InYear(e, year) && MonthIndex(ParseDate(e.date).value) == monthIndex
  }

  function MonthOf(year: int, monthIndex: int): CalendarEvent -> bool {
    e => InMonth(e, year, monthIndex)
  }

  function YearOf(year: int): CalendarEvent -> bool {
    e => InYear(e, year)
  }

  /** `getEventCountForMonth`: the number of events that fall in the month
      of the viewed year; zero exactly when none does. */
  function EventCountForMonth(events: seq<CalendarEvent>, year: int, monthIndex: int): (n: nat)
    ensures n == Count(events, MonthOf(year, monthIndex))
    ensures n <= |events|
    ensures n == 0 <==> forall i :: 0 <= i < |events| ==> !InMonth(events[i], year, monthIndex)
  {
    var matching := MonthEvents(events, year, monthIndex);
    FilterLength(events, MonthOf(year, monthIndex));
    FilterMembers(events, MonthOf(year, monthIndex));
    assert forall i :: 0 <= i < |events| && InMonth(events[i], year, monthIndex) ==> events[i] in matching;
    assert matching != [] ==> matching[0] in events && InMonth(matching[0], year, monthIndex);
    |matching|
  }

  /** The events the month's count counts. */
  function MonthEvents(events: seq<CalendarEvent>, year: int, monthIndex: int): seq<CalendarEvent> {
    Filter(events, MonthOf(year, monthIndex))
  }

  lemma MonthEventsStep(events: seq<CalendarEvent>, year: int, monthIndex: int)
    requires events != []
    ensures |MonthEvents(events, year, monthIndex)| ==
      |MonthEvents(events[1..], year, monthIndex)| + if InMonth(events[0], year, monthIndex) then 1 else 0
  {
  }

  /** The number of events in the viewed year. */
  function EventCountForYear(events: seq<CalendarEvent>, year: int): (n: nat)
    ensures n == Count(events, YearOf(year))
  {
    FilterLength(events, YearOf(year));
    |Filter(events, YearOf(year))|
  }

  /** The counts of the first `k` months (`EventCountForMonth` is the
      length of `MonthEvents`). */
  function CountsBefore(events: seq<CalendarEvent>, year: int, k: nat): nat {
    if k == 0 then 0 else CountsBefore(events, year, k - 1) + |MonthEvents(events, year, k - 1)|
  }

  lemma {:induction false} CountsBeforeEmpty(year: int, k: nat)
    ensures CountsBefore([], year, k) == 0
  {
    if k > 0 {
      CountsBeforeEmpty(year, k - 1);
    }
  }

  /** Peeling off the first event changes the first `k` counts by one
      exactly when it falls in one of those months of the year. */
  lemma {:induction false} CountsBeforeStep(events: seq<CalendarEvent>, year: int, k: nat)
    requires events != []
    ensures CountsBefore(events, year, k) == CountsBefore(events[1..], year, k) +
      if InYear(events[0], year) && MonthIndex(ParseDate(events[0].date).value) < k then 1 else 0
  {
    if k > 0 {
      CountsBeforeStep(events, year, k - 1);
      MonthEventsStep(events, year, k - 1);
    }
  }

  /** The twelve month counts add up to the events of the year, so together
      they never exceed the number of events. */
  lemma {:induction false} MonthCountsSumToYear(events: seq<CalendarEvent>, year: int)
    ensures CountsBefore(events, year, 12) == EventCountForYear(events, year) <= |events|
  {
    if events == [] {
      CountsBeforeEmpty(year, 12);
    } else {
      CountsBeforeStep(events, year, 12);
      MonthCountsSumToYear(events[1..], year);
    }
  }

  datatype MonthRow = MonthRow(name: string, isActive: bool, count: nat, showsBadge: bool)

  /** The month list: January to December, exactly the viewed month active,
      each with its count and a badge only for a positive count. */
  function MonthRows(current: Date, events: seq<CalendarEvent>): (rows: seq<MonthRow>)
    ensures |rows| == 12 && rows[MonthIndex(current)].isActive
    ensures forall i :: 0 <= i < 12 ==> rows[i].name == Months[i]
    ensures forall i :: 0 <= i < 12 ==> (rows[i].isActive <==> i == MonthIndex(current))
    ensures forall i :: 0 <= i < 12 ==> rows[i].count == EventCountForMonth(events, current.year, i)
    ensures forall i :: 0 <= i < 12 ==>
      (rows[i].showsBadge <==> exists j :: 0 <= j < |events| && InMonth(events[j], current.year, i))
  {
    seq(12, i requires 0 <= i < 12 =>
      var count := EventCountForMonth(events, current.year, i);
      MonthRow(Months[i], i == MonthIndex(current), count, count > 0))
  }

  /** The sum of the counts the rows show. */
  function RowTotal(rows: seq<MonthRow>): nat {
    if rows == [] then 0 else RowTotal(rows[..|rows| - 1]) + rows[|rows| - 1].count
  }

  /** The badges the sidebar shows add up to the events of the viewed year. */
  lemma RowCountsSumToYear(current: Date, events: seq<CalendarEvent>)
    ensures RowTotal(MonthRows(current, events)) == EventCountForYear(events, current.year) <= |events|
  {
    var rows := MonthRows(current, events);
    RowPrefixTotal(current, events, 12);
    assert rows[..12] == rows;
    MonthCountsSumToYear(events, current.year);
  }

  lemma {:induction false} RowPrefixTotal(current: Date, events: seq<CalendarEvent>, k: nat)
    requires k <= 12
    ensures RowTotal(MonthRows(current, events)[..k]) == CountsBefore(events, current.year, k)
  {
    if k > 0 {
      var rows := MonthRows(current, events);
      RowPrefixTotal(current, events, k - 1);
      assert rows[..k][..k - 1] == rows[..k - 1];
      assert rows[..k][k - 1].count == EventCountForMonth(events, current.year, k - 1) ==
        |MonthEvents(events, current.year, k - 1)|;
    }
  }

  /** `handlePrevYear`: the same month a year earlier. */
  method PrevYear(store: CalendarStore)
    modifies store`currentDate
    ensures store.currentDate.year == old(store.currentDate.year) - 1
    ensures store.currentDate.month == old(store.currentDate.month)
    ensures store.currentDate == AddYears(old(store.currentDate), -1)
    ensures store.selectedDate == old(store.selectedDate) && store.events == old(store.events)
  {
    store.SetCurrentDate(AddYears(store.currentDate, -1));
  }

  /** `handleNextYear`: the same month a year later. */
  method NextYear(store: CalendarStore)
    modifies store`currentDate
    ensures store.currentDate.year == old(store.currentDate.year) + 1
    ensures store.currentDate.month == old(store.currentDate.month)
    ensures store.currentDate == AddYears(old(store.currentDate), 1)
    ensures store.selectedDate == old(store.selectedDate) && store.events == old(store.events)
  {
    store.SetCurrentDate(AddYears(store.currentDate, 1));
  }

  /** `handleMonthClick`: the clicked month of the same year. */
  method MonthClick(store: CalendarStore, index: int)
    requires 0 <= index < 12
    modifies store`currentDate
    ensures store.currentDate.year == old(store.currentDate.year)
    ensures MonthIndex(store.currentDate) == index
    ensures store.currentDate == WithMonthIndex(old(store.currentDate), index)
    ensures store.selectedDate == old(store.selectedDate) && store.events == old(store.events)
  {
    store.SetCurrentDate(WithMonthIndex(store.currentDate, index));
  }

  /** A year back and a year forward views the same month again; only the
      month's 29th of February can be pulled back to the 28th. */
  lemma PrevThenNextKeepsMonth(d: Date)
    ensures AddYears(AddYears(d, -1), 1).year == d.year
    ensures AddYears(AddYears(d, -1), 1).month == d.month
    ensures !(d.month == 2 && d.day == 29) ==> AddYears(AddYears(d, -1), 1) == d
  {
    if d.month == 2 && d.day < 29 {
      assert d.day <= 28 <= DaysInMonth(d.year - 1, 2);
    }
  }

  /** The clamping case: 29 February 2024 comes back as the 28th. */
  lemma LeapDayRoundTrip()
    ensures AddYears(AddYears(CivilDate(2024, 2, 29), -1), 1) == CivilDate(2024, 2, 28)
  {
    assert !IsLeapYear(2023);
  }
}
