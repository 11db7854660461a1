/** The day panel (src/components/DayPanel/DayPanel.tsx): the events whose
    date string is the selected day written `YYYY-MM-DD`, in the store's
    order, or an empty-state message when there are none. */
module DayPanel {
  import opened Wrappers
  import opened Text
  import opened Dates
  import opened Types
  import opened Seqs
  import opened CalendarGrid

  predicate ListedOn(e: CalendarEvent, selected: Date) {
    e.date == Format(selected)
  }

  function Listed(selected: Date): CalendarEvent -> bool {
    e => ListedOn(e, selected)
  }

  /** `currentDayEvents`: plain string comparison with the formatted day. */
  function CurrentDayEvents(events: seq<CalendarEvent>, selected: Date): (r: seq<CalendarEvent>)
    ensures forall i :: 0 <= i < |r| ==> r[i].date == Format(selected)
    ensures IsSubsequence(r, events)
  {
    FilterIsSubsequence(events, Listed(selected));
    Filter(events, Listed(selected))
  }

  /** Every event of the day is listed, as often as it is stored. */
  lemma CurrentDayEventsComplete(events: seq<CalendarEvent>, selected: Date)
    ensures forall e :: e in CurrentDayEvents(events, selected) <==> e in events && e.date == Format(selected)
    ensures forall e :: ListedOn(e, selected) ==>
      multiset(CurrentDayEvents(events, selected))[e] == multiset(events)[e]
  {
    FilterMembers(events, Listed(selected));
    FilterMultiset(events, Listed(selected));
  }

  /** For a four-digit year, matching the formatted string is the same as
      the grid's matching of days, with dates read strictly as
      `YYYY-MM-DD` (`ParseDate`). */
  lemma AgreesWithGrid(events: seq<CalendarEvent>, selected: Date)
    requires 0 <= selected.year <= 9999
    ensures CurrentDayEvents(events, selected) == EventsForDay(events, selected)
  {
    forall i | 0 <= i < |events|
      ensures ListedOn(events[i], selected) == OnDay(events[i], selected)
    {
      if ParseDate(events[i].date).Some? {
        FormatMatchIffSameDay(events[i].date, selected);
      } else {
        ParseFormat(selected);
      }
    }
    FilterCongruent(events, Listed(selected), e => OnDay(e, selected));
  }

  /** `x && <div>…</div>`: rendered only for a present, non-empty string. */
  function Line(field: Option<string>): (line: Option<string>)
    ensures line.Some? <==> field.Some? && field.value != ""
    ensures line.Some? ==> line.value == field.value
  {
    if field.Some? && field.value != "" then field else None
  }

  datatype Card = Card(title: string, timeLine: Option<string>, descriptionLine: Option<string>)

  function CardOf(e: CalendarEvent): Card {
    Card(e.title, Line(e.time), Line(e.description))
  }

  datatype PanelBody = EmptyState | EventList(cards: seq<Card>)

  /** The panel's list: the empty state exactly when no event is on the
      selected day, otherwise one card per listed event, in order. */
  function Panel(events: seq<CalendarEvent>, selected: Date): (body: PanelBody)
    ensures body.EmptyState? <==> forall i :: 0 <= i < |events| ==> events[i].date != Format(selected)
    ensures body.EventList? ==>
      var listed := CurrentDayEvents(events, selected);
      |body.cards| == |listed| && forall i :: 0 <= i < |listed| ==> body.cards[i] == CardOf(listed[i])
  {
    var listed := CurrentDayEvents(events, selected);
    NothingListed(events, selected);
    if |listed| == 0 then EmptyState
    else EventList(seq(|listed|, i requires 0 <= i < |listed| => CardOf(listed[i])))
  }

  /** The list is empty exactly when no event has the day's date string. */
  lemma NothingListed(events: seq<CalendarEvent>, selected: Date)
    ensures CurrentDayEvents(events, selected) == [] <==>
      forall i :: 0 <= i < |events| ==> events[i].date != Format(selected)
  {
    FilterMembers(events, Listed(selected));
    if CurrentDayEvents(events, selected) == [] {
      forall i | 0 <= i < |events|
        ensures events[i].date != Format(selected)
      {
        assert events[i] !in CurrentDayEvents(events, selected);
      }
    } else {
      assert CurrentDayEvents(events, selected)[0] in events;
    }
  }

  const SampleDate := "2026-06-15"
  const SampleEvent := CalendarEvent("1", "Meeting", SampleDate, Some("Team sync"), Some("10:00"))

  lemma FormatSampleDay()
    ensures Format(CivilDate(2026, 6, 15)) == "2026-06-15"
  {
    FormatFixedWidth(CivilDate(2026, 6, 15));
    assert Fixed(2026, 4) == "2026";
    assert Fixed(6, 2) == "06";
    assert Fixed(15, 2) == "15";
    assert "2026" + "-" + "06" + "-" + "15" == "2026-06-15";
  }

  lemma FormatNextDay()
    ensures Format(CivilDate(2026, 6, 16))[9] == '6'
  {
    FormatFixedWidth(CivilDate(2026, 6, 16));
    assert Fixed(16, 2) == "16";
  }

  /** An event dated 2026-06-15 is listed, with its time and description,
      when that day is selected, and not on the next day. */
  lemma ListsEventOnItsDay()
    ensures Panel([SampleEvent], CivilDate(2026, 6, 15)) ==
      EventList([Card("Meeting", Some("10:00"), Some("Team sync"))])
    ensures Panel([SampleEvent], CivilDate(2026, 6, 16)) == EmptyState
  {
    FormatSampleDay();
    FormatNextDay();
    assert CurrentDayEvents([SampleEvent], CivilDate(2026, 6, 15)) == [SampleEvent];
    assert CurrentDayEvents([SampleEvent], CivilDate(2026, 6, 16)) == [];
  }
}
