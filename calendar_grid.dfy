/** The month grid (src/components/CalendarGrid/CalendarGrid.tsx): six
    weeks of days from the Monday on or before the first of the viewed
    month, each cell flagged as in the viewed month or not and as selected
    or not, with the events that fall on it. */
module CalendarGrid {
  import opened Wrappers
  import opened Dates
  import opened Types
  import opened Seqs
  import opened CalendarContext

  const GridSize := 42

  /** `currentDate.startOf('month').startOf('isoWeek')`: the Monday on or
      before the first of the viewed month. */
  function GridStart(view: Date): (start: Date)
    ensures IsoWeekday(start) == 1
    ensures DayNumber(StartOfMonth(view)) - 6 <= DayNumber(start) <= DayNumber(StartOfMonth(view))
  {
    StartOfIsoWeekIsMonday(StartOfMonth(view));
    StartOfIsoWeek(StartOfMonth(view))
  }

  /** `days` is the grid of `view`: 42 consecutive days from its start. */
  predicate IsGrid(view: Date, days: seq<Date>) {
    |days| == GridSize &&
    forall i :: 0 <= i < |days| ==> DayNumber(days[i]) == DayNumber(GridStart(view)) + i
  }

  /** The loop that builds `days`, one day after another. */
  method MonthGrid(view: Date) returns (days: seq<Date>)
    ensures IsGrid(view, days)
    ensures days[0] == GridStart(view)
    ensures forall i :: 0 < i < |days| ==> days[i] == NextDay(days[i - 1])
  {
    days := [];
    var day := GridStart(view);
    for i := 0 to GridSize
      invariant |days| == i
      invariant DayNumber(day) == DayNumber(GridStart(view)) + i
      invariant forall k :: 0 <= k < i ==> DayNumber(days[k]) == DayNumber(GridStart(view)) + k
      invariant i == 0 ==> day == GridStart(view)
      invariant i > 0 ==> days[0] == GridStart(view) && day == NextDay(days[i - 1])
      invariant forall k :: 0 < k < i ==> days[k] == NextDay(days[k - 1])
    {
      days := days + [day];
      NextDayNumber(day);
      day := NextDay(day);
    }
  }

  /** No day appears twice in a grid. */
  lemma GridDistinct(view: Date, days: seq<Date>, i: int, j: int)
    requires IsGrid(view, days) && 0 <= i < |days| && 0 <= j < |days| && i != j
    ensures days[i] != days[j]
  {
  }

  /** Every day of the viewed month is in the grid, the `k`-th day at
      position `k - 1` after the first's weekday offset. */
  lemma GridCoversMonth(view: Date, days: seq<Date>, d: Date)
    requires IsGrid(view, days)
    requires d.year == view.year && d.month == view.month
    ensures var i := IsoWeekday(StartOfMonth(view)) - 1 + d.day - 1;
      0 <= i < |days| && days[i] == d
  {
    var first := StartOfMonth(view);
    StartOfIsoWeekIsMonday(first);
    var i := IsoWeekday(first) - 1 + d.day - 1;
    assert DayNumber(d) == DayNumber(first) + d.day - 1;
    DayNumberInjective(days[i], d);
  }

  /** A grid day in the viewed month's position is in the viewed year: the
      same month of another year is at least 334 days away, and the grid
      spans 42. */
  lemma GridMonthIsViewedMonth(view: Date, days: seq<Date>, i: int)
    requires IsGrid(view, days) && 0 <= i < |days|
    requires days[i].month == view.month
    ensures days[i].year == view.year
  {
  }

  // ---------------------------------------------------------------------
  // Cells

  /** `dayjs(e.date).isSame(d, 'day')`, reading the date strictly. */
  predicate OnDay(e: CalendarEvent, d: Date) {
    ParseDate(e.date) == Some(d)
  }

  /** `getEventsForDay`: the events on `d`, in the store's order. */
  function EventsForDay(events: seq<CalendarEvent>, d: Date): (r: seq<CalendarEvent>)
    ensures forall i :: 0 <= i < |r| ==> OnDay(r[i], d)
    ensures IsSubsequence(r, events)
  {
    FilterIsSubsequence(events, e => OnDay(e, d));
    Filter(events, e => OnDay(e, d))
  }

  /** Nothing on `d` is left out, and each is listed as often as stored. */
  lemma EventsForDayComplete(events: seq<CalendarEvent>, d: Date)
    ensures forall e :: e in EventsForDay(events, d) <==> e in events && OnDay(e, d)
    ensures forall e :: OnDay(e, d) ==> multiset(EventsForDay(events, d))[e] == multiset(events)[e]
  {
    FilterMembers(events, e => OnDay(e, d));
    FilterMultiset(events, e => OnDay(e, d));
  }

  datatype Cell = Cell(date: Date, isCurrentMonth: bool, isSelected: bool, dayEvents: seq<CalendarEvent>)

  /** One rendered cell: `month()` compares month indexes only, and
      `isSame(selectedDate, 'day')` is equality of days. */
  function CellOf(date: Date, view: Date, selected: Date, events: seq<CalendarEvent>): Cell {
    Cell(date, MonthIndex(date) == MonthIndex(view), date == selected, EventsForDay(events, date))
  }

  function CellDates(cells: seq<Cell>): (days: seq<Date>)
    ensures |days| == |cells| && forall i :: 0 <= i < |cells| ==> days[i] == cells[i].date
  {
    seq(|cells|, i requires 0 <= i < |cells| => cells[i].date)
  }

  /** The rendered grid: 42 cells over the grid's days; a cell is in the
      current month exactly when it is in the viewed month and year; at
      most one cell is selected, the one on the selected day; each cell
      lists that day's events. */
  method RenderGrid(view: Date, selected: Date, events: seq<CalendarEvent>) returns (cells: seq<Cell>)
    ensures IsGrid(view, CellDates(cells))
    ensures forall i :: 0 <= i < |cells| ==>
      (cells[i].isCurrentMonth <==> cells[i].date.year == view.year && cells[i].date.month == view.month)
    ensures forall i :: 0 <= i < |cells| ==> (cells[i].isSelected <==> cells[i].date == selected)
    ensures forall i, j :: 0 <= i < |cells| && 0 <= j < |cells| && cells[i].isSelected && cells[j].isSelected ==> i == j
    ensures forall i :: 0 <= i < |cells| ==> cells[i].dayEvents == EventsForDay(events, cells[i].date)
  {
    var days := MonthGrid(view);
    cells := seq(|days|, i requires 0 <= i < |days| => CellOf(days[i], view, selected, events));
    assert CellDates(cells) == days;
    forall i | 0 <= i < |cells| && cells[i].isCurrentMonth
      ensures cells[i].date.year == view.year
    {
      GridMonthIsViewedMonth(view, days, i);
    }
    forall i, j | 0 <= i < |cells| && 0 <= j < |cells| && cells[i].isSelected && cells[j].isSelected
      ensures i == j
    {
      if i != j {
        GridDistinct(view, days, i, j);
      }
    }
  }

  /** Clicking a cell selects its day. */
  method SelectCell(store: CalendarStore, cell: Cell)
    modifies store`selectedDate
    ensures store.selectedDate == cell.date
    ensures store.currentDate == old(store.currentDate) && store.events == old(store.events)
  {
    store.SetSelectedDate(cell.date);
  }
}
