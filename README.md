# Antigravity Calendar — a verified model of its core

This project models the logic of a small React calendar:

- the store that holds the viewed month, the selected day and the list of events;
- the event form, covering its fields, time-range parsing, validation and the payload it submits;
- the modal around the form, which sends an edit to an update callback and a creation to the store;
- the 42-day month grid;
- the sidebar's per-month counts and year/month navigation;
- the day panel's listing;
- the generator of themed mock events for 2026.

Dates are a proleptic Gregorian `CivilDate` (year, month 1–12, day). It stands in for the dayjs objects the program uses. Each date has a day number counted from 0001-01-01 (a Monday), and the day of the week comes from that number. ISO 8601 weeks start on Monday. The serial form is the `full-date` of section 5.6 of RFC 3339, `YYYY-MM-DD`: `Dates.Format` writes it and `Dates.ParseDate` reads it back.

Modules:

| module | file | models |
|---|---|---|
| `Wrappers` | wrappers.dfy | `Option`, `Result` |
| `Text` | text.dfy | `trim()`, regex `\s`/`\d`, `String(n)`, `padStart` |
| `Seqs` | seqs.dfy | `Array.prototype.filter` |
| `Dates` | dates.dfy | the dayjs operations used: next/previous day, add days, start of month and of ISO week, `day()`, `isoWeekday()`, `month()`, add years, set month, `format('YYYY-MM-DD')`, strict parsing |
| `Types` | types.dfy | `CalendarEvent` and the form's `Omit<CalendarEvent, 'id'>` |
| `CalendarContext` | calendar_context.dfy | `CalendarProvider` as the class `CalendarStore`, the seed events, `useCalendar` |
| `EventForm` | event_form.dfy | `useEventForm` as the class `FormState` plus pure validation and time functions |
| `EventModal` | event_modal.dfy | submit dispatch, field handlers, reset on close |
| `CalendarGrid` | calendar_grid.dfy | grid construction loop, per-day events, cell flags |
| `Sidebar` | sidebar.dfy | month counts, month rows, year and month navigation |
| `DayPanel` | day_panel.dfy | the selected day's list and its cards |
| `MockEvents` | mock_events.dfy | the generator's day loop, id counter and themed days |

Each state cell of the provider and each `useState` of the form hook becomes a field of a class. Each setter becomes an assignment inside a method with a `modifies` frame. Each `useEffect` becomes a method that the host calls when the effect's dependencies change.

Calls the modal makes to callbacks it cannot see are recorded in order as values of `EventModal.Call`. These are `updateEvent`, which the provider in src/context/CalendarContext.tsx does not define, and `onClose`.

The generator's `while` loop is `MockEvents.Walk`. It is proved equal to the specification function `MockEvents.Run`, and the properties of the generated list are lemmas about `Run`.

## Model

| member | source | states |
|---|---|---|
| `Text.Trim` | src/components/EventModal/useEventForm.ts:74 | `trim()` returns an infix of its input that starts at the first non-whitespace character, with only whitespace outside it; the result is empty iff the input is all whitespace, and it neither starts nor ends with whitespace |
| `Text.TrimIdempotent` | src/components/EventModal/useEventForm.ts:119-121 | trimming an already trimmed title or description changes nothing |
| `Text.NatToString` | src/mocks/events.ts:28 | `String(id)` is a non-empty digit string with no leading zero |
| `Text.NatToStringInjective` | src/mocks/events.ts:28 | distinct counter values give distinct id strings |
| `Text.PadNatToString` | src/components/DayPanel/DayPanel.tsx:11 | zero-padding a number's decimal string to `k` places gives its fixed-width `k`-digit form |
| `Seqs.Filter` | src/components/CalendarGrid/CalendarGrid.tsx:37-39 | `filter` keeps only elements that pass, and never more than the input holds |
| `Seqs.FilterIsSubsequence` | src/components/CalendarGrid/CalendarGrid.tsx:37-39 | the kept elements stay in the input's order |
| `Seqs.FilterMultiset` | src/components/CalendarGrid/CalendarGrid.tsx:37-39 | each passing element is kept exactly as often as it occurs, each failing one never |
| `Seqs.Count` | src/components/Sidebar/Sidebar.tsx:31-35 | the number of positions whose element passes, at most the length |
| `Seqs.FilterLength` | src/components/Sidebar/Sidebar.tsx:31-35 | `filter(p).length` is the number of positions that pass |
| `Seqs.FilterMembers` | src/components/DayPanel/DayPanel.tsx:9-12 | an element is in the filtered list iff it is in the list and passes |
| `Dates.DaysInMonth` | src/components/CalendarGrid/CalendarGrid.tsx:33 | a month has 28 to 31 days, and 29 exactly for February of a leap year |
| `Dates.NextDay` | src/mocks/events.ts:77 | `add(1, 'day')` by month and year rollover; no contract of its own, `Dates.NextDayNumber` states it |
| `Dates.AddDays` | src/context/CalendarContext.tsx:29 | `add(n, 'day')` as `n` single days; no contract of its own, `Dates.AddDaysNumber` states it |
| `Dates.NextDayNumber` | src/components/CalendarGrid/CalendarGrid.tsx:33 | `add(1, 'day')` advances the day number by exactly one |
| `Dates.AddDaysNumber` | src/context/CalendarContext.tsx:29 | `add(n, 'day')` advances the day number by exactly `n` |
| `Dates.BeforeIffDayNumber` | src/mocks/events.ts:20 | `isBefore` on days is the order of their day numbers |
| `Dates.DayNumberInjective` | src/mocks/events.ts:20 | two days with the same day number are the same day |
| `Dates.DayOfWeek` | src/mocks/events.ts:22 | `day()` is in 0..6; `Dates.WeekdayAnchors` pins 0 to Sunday |
| `Dates.WeekdayAnchors` | src/mocks/events.ts:22 | 0001-01-01 is day number 0 and a Monday; 1 January 2026 is a Thursday (4); 14 June 2026 is a Sunday (`day()` 0, `isoWeekday()` 7) and 15 June 2026 a Monday (both 1) |
| `Dates.IsoWeekday` | src/components/CalendarGrid/CalendarGrid.tsx:22 | `isoWeekday()` is in 1..7 and agrees with `day()` modulo 7 |
| `Dates.NextDayWeekday` | src/components/CalendarGrid/CalendarGrid.tsx:33 | the next day's weekday is one later, modulo 7 |
| `Dates.StartOfMonth` | src/components/CalendarGrid/CalendarGrid.tsx:19 | `startOf('month')` keeps year and month with day 1 |
| `Dates.StartOfIsoWeek` | src/components/CalendarGrid/CalendarGrid.tsx:24 | `startOf('isoWeek')` as `isoWeekday() - 1` days back; no contract of its own, `Dates.StartOfIsoWeekIsMonday` states it |
| `Dates.StartOfIsoWeekIsMonday` | src/components/CalendarGrid/CalendarGrid.tsx:24 | `startOf('isoWeek')` is a Monday, at most six days back |
| `Dates.MonthIndex` | src/components/Sidebar/Sidebar.tsx:15 | `month()` is zero-based, in 0..11 |
| `Dates.AddYears` | src/components/Sidebar/Sidebar.tsx:17-23 | adding `k` years shifts the year by `k` and keeps the month |
| `Dates.WithMonthIndex` | src/components/Sidebar/Sidebar.tsx:27 | `month(i)` keeps the year and sets the month index to `i` |
| `Dates.Format` | src/components/DayPanel/DayPanel.tsx:11 | `format('YYYY-MM-DD')`; no contract of its own, `Dates.FormatFixedWidth` gives its fixed-width form and `Dates.ParseFormat` its reading back |
| `Dates.ParseDate` | src/components/CalendarGrid/CalendarGrid.tsx:38 | `dayjs(s)` on a strict `YYYY-MM-DD` naming a real date; no contract of its own, `Dates.FormatParse` states that what it reads is exactly the formatted date |
| `Dates.FormatFixedWidth` | src/components/DayPanel/DayPanel.tsx:11 | for a year 0..9999 the string is the four-digit year, the two-digit month and the two-digit day joined by hyphens |
| `Dates.ParseFormat` | src/components/DayPanel/DayPanel.tsx:11 | a formatted four-digit-year date reads back as the same date |
| `Dates.FormatParse` | src/components/CalendarGrid/CalendarGrid.tsx:38 | a string that reads as a date is exactly that date's formatted string |
| `Dates.FormatMatchIffSameDay` | src/components/DayPanel/DayPanel.tsx:11 | a readable date string equals a day's formatted string iff it names that day |
| `Dates.FormatInjective` | src/mocks/events.ts:21 | distinct four-digit-year days have distinct `YYYY-MM-DD` strings |
| `CalendarContext.SeedEvent` | src/context/CalendarContext.tsx:20-43 | seed event `i` has id `i + 1`, its title and time, no description, and is dated today plus its offset |
| `CalendarContext.InitialEvents` | src/context/CalendarContext.tsx:19-44 | exactly the four seed events, in order |
| `CalendarContext.InitialEventIdsDistinct` | src/context/CalendarContext.tsx:21-39 | the seed ids are pairwise distinct |
| `CalendarContext.InitialEventDates` | src/context/CalendarContext.tsx:23-41 | the seed dates read back as today, today + 1, today + 3 and today + 15 |
| `CalendarContext.CalendarStore.constructor` | src/context/CalendarContext.tsx:17-44 | both cursors start at today and the list holds the seed events |
| `CalendarContext.CalendarStore.SetCurrentDate` | src/context/CalendarContext.tsx:17 | replaces the viewed date and nothing else |
| `CalendarContext.CalendarStore.SetSelectedDate` | src/context/CalendarContext.tsx:18 | replaces the selected day and nothing else |
| `CalendarContext.CalendarStore.AddEvent` | src/context/CalendarContext.tsx:46-48 | appends the event at the end with no id check; earlier events stay in place and the cursors are untouched |
| `CalendarContext.UseCalendar` | src/context/CalendarContext.tsx:57-61 | fails with the provider message exactly when there is no provider, otherwise returns the provider's store |
| `EventForm.ParseTimeRange` | src/components/EventModal/useEventForm.ts:28-44 | the start is filled iff the string is a range or a single `HH:MM`, the end iff it is a range, and each filled input is an `HH:MM`; a range fills the start with its first `HH:MM` group and the end with its second, and a single time fills the start with itself |
| `EventForm.SpacedHyphenIsSeparator` | src/components/EventModal/useEventForm.ts:32 | `" - "` matches the range pattern's `\s*-\s*` |
| `EventForm.CombineTime` | src/components/EventModal/useEventForm.ts:111-116 | `"start - end"`, `start` alone, or nothing; no contract of its own, `EventForm.TimeRoundTrip` and `EventForm.CombineParsed` state it against `ParseTimeRange` |
| `EventForm.TimeRoundTrip` | src/components/EventModal/useEventForm.ts:28-41 | parsing what the submit combines gives back both inputs, except that an end without a start is dropped |
| `EventForm.CombineParsed` | src/components/EventModal/useEventForm.ts:111-116 | a stored `HH:MM` or `HH:MM - HH:MM` is rebuilt exactly from the inputs parsing fills |
| `EventForm.AllDayHasNoTimes` | src/components/EventModal/useEventForm.ts:43 | `"All Day"` fills neither time input |
| `EventForm.StringLess` | src/components/EventModal/useEventForm.ts:93 | JavaScript's string `<`, character by character; no contract of its own, `EventForm.StringLessAsymmetric` and `EventForm.ClockOrder` state it |
| `EventForm.StringLessAsymmetric` | src/components/EventModal/useEventForm.ts:93 | the string order never holds both ways |
| `EventForm.ClockOrder` | src/components/EventModal/useEventForm.ts:93 | on `HH:MM` strings, JavaScript's string `<` is the order of the times |
| `EventForm.TitleError` | src/components/EventModal/useEventForm.ts:74-80 | required iff the title is all whitespace; too long iff it is not but has more than 60 characters; no error iff neither holds |
| `EventForm.DescriptionError` | src/components/EventModal/useEventForm.ts:82-85 | an error iff more than 500 characters, with the length message |
| `EventForm.DateError` | src/components/EventModal/useEventForm.ts:87-90 | an error iff the date is empty, with the required message |
| `EventForm.TimeError` | src/components/EventModal/useEventForm.ts:92-97 | an error iff both times are given and the end is not after the start |
| `EventForm.Validate` | src/components/EventModal/useEventForm.ts:70-101 | each field's message depends only on that field; the record is empty iff every rule holds |
| `EventForm.OvernightRangeRejected` | src/context/CalendarContext.tsx:30 | an example, not a general property (that is `EventForm.TimeError`): the seed time `19:00 - 10:00` loads as two inputs that fail the time rule |
| `EventForm.Payload` | src/components/EventModal/useEventForm.ts:111-123 | title trimmed, description trimmed and absent when blank, times combined as `start - end`, `start` or nothing |
| `EventForm.ValidPayload` | src/components/EventModal/useEventForm.ts:118-123 | a valid form submits a non-blank title of at most 60 characters starting with a non-whitespace character, a date, and a non-empty description of at most 500 characters if any |
| `EventForm.EditWithoutChangesIsStable` | src/components/EventModal/useEventForm.ts:47-56 | loading a submitted payload into the form and submitting again passes validation and gives the same payload |
| `EventForm.FormState.constructor` | src/components/EventModal/useEventForm.ts:14-25 | empty fields, no errors, and the date is the default date or today |
| `EventForm.FormState.LoadEventToEdit` | src/components/EventModal/useEventForm.ts:47-61 | in edit mode, copies title and date, uses the description or `""`, splits the time and clears the errors; otherwise changes nothing |
| `EventForm.FormState.ApplyDefaultDate` | src/components/EventModal/useEventForm.ts:64-68 | a non-empty default date replaces the date only in create mode |
| `EventForm.FormState.ValidateForm` | src/components/EventModal/useEventForm.ts:70-101 | installs a freshly built error record and returns true iff the form is valid |
| `EventForm.FormState.HandleSubmit` | src/components/EventModal/useEventForm.ts:103-126 | validates; calls `onSubmit` iff valid, once, with the payload and whether an event is being edited |
| `EventForm.FormState.ResetForm` | src/components/EventModal/useEventForm.ts:128-135 | back to the initial fields and no errors |
| `EventModal.Heading` | src/components/EventModal/EventModal.tsx:77 | "Edit Event" iff an event is being edited, "Create Event" otherwise |
| `EventModal.MergeEdit` | src/components/EventModal/EventModal.tsx:23 | keeps the id; title, date, description and time all come from the form, an absent one included |
| `EventModal.NewEventId` | src/components/EventModal/EventModal.tsx:26 | a created id starts with `event-` |
| `EventModal.NewEvent` | src/components/EventModal/EventModal.tsx:25-28 | the form data under the new id |
| `EventModal.NewEventIdIsNotNumeric` | src/components/EventModal/EventModal.tsx:26 | a created id never equals a numeric seed or generator id |
| `EventModal.SubmitCalls` | src/components/EventModal/EventModal.tsx:21-32 | exactly one store call (the merged update iff editing, otherwise an addition of the new event), then `onClose` once |
| `EventModal.HandleFormSubmit` | src/components/EventModal/EventModal.tsx:21-32 | makes those calls; the store gains the new event in create mode and is unchanged by an update |
| `EventModal.Save` | src/components/EventModal/EventModal.tsx:63-69 | an invalid form makes no call; a valid one makes the submit calls for its payload |
| `EventModal.OnTitleChange` | src/components/EventModal/EventModal.tsx:84-87 | sets the title and clears only a shown title error |
| `EventModal.OnDescriptionChange` | src/components/EventModal/EventModal.tsx:98-101 | sets the description and clears only a shown description error |
| `EventModal.OnDateChange` | src/components/EventModal/EventModal.tsx:112-115 | sets the date and clears only a shown date error |
| `EventModal.OnStartTimeChange` | src/components/EventModal/EventModal.tsx:126-129 | sets the start and clears only the shared time error |
| `EventModal.OnEndTimeChange` | src/components/EventModal/EventModal.tsx:137-140 | sets the end and clears only the shared time error |
| `EventModal.OnOpenChange` | src/components/EventModal/EventModal.tsx:48-52 | a closed modal resets the form; an open one leaves it as it was |
| `CalendarGrid.GridStart` | src/components/CalendarGrid/CalendarGrid.tsx:19-24 | a Monday, on or at most six days before the first of the viewed month |
| `CalendarGrid.MonthGrid` | src/components/CalendarGrid/CalendarGrid.tsx:28-34 | 42 consecutive days from the grid start, each the day after the previous |
| `CalendarGrid.GridDistinct` | src/components/CalendarGrid/CalendarGrid.tsx:31-34 | no day appears twice in the grid |
| `CalendarGrid.GridCoversMonth` | src/components/CalendarGrid/CalendarGrid.tsx:26-34 | every day of the viewed month is in the grid, at its weekday offset |
| `CalendarGrid.GridMonthIsViewedMonth` | src/components/CalendarGrid/CalendarGrid.tsx:54 | a grid day with the viewed month is in the viewed year |
| `CalendarGrid.OnDay` | src/components/CalendarGrid/CalendarGrid.tsx:38 | `dayjs(e.date).isSame(date, 'day')` as the strict reading of the date being that day; no contract of its own, `CalendarGrid.EventsForDayComplete` states what it selects |
| `CalendarGrid.EventsForDay` | src/components/CalendarGrid/CalendarGrid.tsx:36-40 | an order-preserving subsequence of the events, each on the day |
| `CalendarGrid.EventsForDayComplete` | src/components/CalendarGrid/CalendarGrid.tsx:36-40 | every event on the day is listed, as often as stored, and nothing else |
| `CalendarGrid.CellOf` | src/components/CalendarGrid/CalendarGrid.tsx:53-55 | one cell's month flag, selected flag and events; no contract of its own, `CalendarGrid.RenderGrid` states them per cell |
| `CalendarGrid.RenderGrid` | src/components/CalendarGrid/CalendarGrid.tsx:53-56 | the cells cover the grid; a cell is current-month iff its month and year are the viewed ones; a cell is selected iff it is the selected day, so at most one is; each cell lists its day's events |
| `CalendarGrid.SelectCell` | src/components/CalendarGrid/CalendarGrid.tsx:65 | clicking a cell selects its day and changes nothing else |
| `Sidebar.EventCountForMonth` | src/components/Sidebar/Sidebar.tsx:30-35 | the number of events whose date falls in that month of the viewed year (`Seqs.Count` of the month test); at most the number of events, and zero iff none does |
| `Sidebar.MonthEventsStep` | src/components/Sidebar/Sidebar.tsx:31-35 | the first event adds one to a month's count iff it falls in that month |
| `Sidebar.CountsBeforeStep` | src/components/Sidebar/Sidebar.tsx:51-53 | the first event adds one to the first `k` counts iff it falls in one of those months of the year |
| `Sidebar.EventCountForYear` | src/components/Sidebar/Sidebar.tsx:31-35 | the number of events whose date falls in the viewed year |
| `Sidebar.MonthCountsSumToYear` | src/components/Sidebar/Sidebar.tsx:51-53 | the lengths of the twelve months' filtered lists sum to the number of events in the viewed year, which is at most the number of events |
| `Sidebar.RowCountsSumToYear` | src/components/Sidebar/Sidebar.tsx:51-64 | the counts the twelve rows show sum to the number of events in the viewed year, which is at most the number of events |
| `Sidebar.RowPrefixTotal` | src/components/Sidebar/Sidebar.tsx:51-64 | the counts of the first `k` rows sum to the first `k` months' counts |
| `Sidebar.MonthRows` | src/components/Sidebar/Sidebar.tsx:51-64 | twelve rows, January to December; exactly the viewed month active; each with its count and a badge iff some event is in the month |
| `Sidebar.PrevYear` | src/components/Sidebar/Sidebar.tsx:17-19 | the viewed year goes down by one, the month is kept, nothing else changes |
| `Sidebar.NextYear` | src/components/Sidebar/Sidebar.tsx:21-23 | the viewed year goes up by one, the month is kept, nothing else changes |
| `Sidebar.MonthClick` | src/components/Sidebar/Sidebar.tsx:25-28 | keeps the year and sets the month index to the clicked one |
| `Sidebar.PrevThenNextKeepsMonth` | src/components/Sidebar/Sidebar.tsx:17-23 | back a year and forward again restores year and month, and the whole date unless it is 29 February |
| `Sidebar.LeapDayRoundTrip` | src/components/Sidebar/Sidebar.tsx:17-23 | 29 February 2024 comes back as the 28th |
| `DayPanel.CurrentDayEvents` | src/components/DayPanel/DayPanel.tsx:9-12 | an order-preserving subsequence of events whose date string is the selected day's |
| `DayPanel.CurrentDayEventsComplete` | src/components/DayPanel/DayPanel.tsx:9-12 | exactly the events with that date string, each as often as stored |
| `DayPanel.NothingListed` | src/components/DayPanel/DayPanel.tsx:22 | the list is empty iff no event's date string is the selected day's |
| `DayPanel.AgreesWithGrid` | src/components/DayPanel/DayPanel.tsx:11 | for a four-digit year, the string match lists the same events as the grid's day match, with dates read strictly as `YYYY-MM-DD` |
| `DayPanel.Line` | src/components/DayPanel/DayPanel.tsx:29-30 | a time or description line is shown iff the field is present and non-empty |
| `DayPanel.Panel` | src/components/DayPanel/DayPanel.tsx:22-38 | the empty state iff no event matches; otherwise one card per listed event, in order |
| `DayPanel.ListsEventOnItsDay` | src/components/DayPanel/DayPanel.test.tsx:27-33 | an example, not a general property (that is `DayPanel.CurrentDayEventsComplete`): an event dated 2026-06-15 is listed with its time and description on that day, and not on the 16th |
| `MockEvents.Label` | src/mocks/events.ts:27-32 | a day's entries become events with consecutive ids from the counter, the day's date and no description |
| `MockEvents.GenerateEvents` | src/mocks/events.ts:13-81 | the generated list is the walk over all 365 days of 2026 with the themed day plan |
| `MockEvents.Walk` | src/mocks/events.ts:14-78 | the loop pushes each day's entries day by day, with the counter carried across days |
| `MockEvents.PushDay` | src/mocks/events.ts:24-75 | one day's pushes append its entries numbered from the counter, which moves past them |
| `MockEvents.RunStaysInYear` | src/mocks/events.ts:20 | the loop test holds exactly for the first 365 days |
| `MockEvents.DayInYear` | src/mocks/events.ts:17-21 | day `k` of the walk is in 2026, `k` days after the first of January, and its string reads back as that day |
| `MockEvents.DaysAscend` | src/mocks/events.ts:77 | the walk's days strictly ascend |
| `MockEvents.DaysNeverGoBack` | src/mocks/events.ts:77 | a later day of the walk is never before an earlier one |
| `MockEvents.VisitedOnce` | src/mocks/events.ts:17-20 | a day of 2026 sits at its day-number offset from 1 January, and that day of the walk is the day |
| `MockEvents.DayIndex` | src/mocks/events.ts:17-20 | every day of 2026 is visited, at its position in the walk |
| `MockEvents.RunIds` | src/mocks/events.ts:15 | the ids are "1", "2", … in order, with no gaps |
| `MockEvents.IdsDistinct` | src/mocks/events.ts:28 | no two generated ids are equal, and the last id is the number of events |
| `MockEvents.RunOrigins` | src/mocks/events.ts:36-75 | each event is an entry of the day that pushed it, dated that day, and the days of the events never go back |
| `MockEvents.OriginsAscend` | src/mocks/events.ts:20-78 | the days the events come from are walked days, in the order of the walk |
| `MockEvents.RunDates` | src/mocks/events.ts:21 | each event's date reads back as the day that pushed it, in 2026 |
| `MockEvents.DatesAscend` | src/mocks/events.ts:17-21 | every event is dated in 2026, and the dates are non-decreasing through the list |
| `MockEvents.DateStringInjective` | src/mocks/events.ts:21 | distinct days of the walk have distinct date strings |
| `MockEvents.NoBlockYet` | src/mocks/events.ts:20-78 | before day `k` is reached, no event is dated day `k` |
| `MockEvents.BlockArrives` | src/mocks/events.ts:20-78 | right after day `k` is walked, the events dated day `k` are exactly the block that day pushed |
| `MockEvents.BlockUpTo` | src/mocks/events.ts:20-78 | once day `k` is past, the events dated day `k` are exactly the block that day pushed |
| `MockEvents.BlockStep` | src/mocks/events.ts:27-75 | a block dated one day adds to that day's events and to no other day's |
| `MockEvents.RunDay` | src/mocks/events.ts:20-78 | the events dated any day of 2026 are that day's block, numbered from where the earlier days left the counter |
| `MockEvents.GeneratedDay` | src/mocks/events.ts:21-75 | the generated events dated any day of 2026 read back as that day's entries, in push order |
| `MockEvents.MorningHolds` | src/mocks/events.ts:25-33 | a morning entry exists only when its draw passed, and it is the drawn sport at 07:00 - 08:30 |
| `MockEvents.MealsHold` | src/mocks/events.ts:36-45 | a meal is breakfast, weekday lunch with the team, weekend family lunch, or dinner (family dinner at weekends, with the wife otherwise) |
| `MockEvents.WorkHolds` | src/mocks/events.ts:48-57 | work entries happen only on days 1 to 5 and are the stand-up, a client meeting or a project review |
| `MockEvents.SocialHolds` | src/mocks/events.ts:60-67 | parents and evening with the wife only at weekends, drinks only on weekdays |
| `MockEvents.VacationsHold` | src/mocks/events.ts:70-75 | summer vacation only on 10–17 July and ski trip only on 15–20 February, all day |
| `MockEvents.DayEntries` | src/mocks/events.ts:20-75 | one day's pushes for its `day()`; no contract of its own, the lemmas on `MockEvents.Schedule` below state its contents |
| `MockEvents.Schedule` | src/mocks/events.ts:24-75 | the five sections in push order; no contract of its own, `MockEvents.InSomeSection`, `MockEvents.OneBreakfast` and the other section lemmas state its contents |
| `MockEvents.InSomeSection` | src/mocks/events.ts:24-75 | every entry of a day comes from one of the five sections |
| `MockEvents.WeekdayOnlyEntries` | src/mocks/events.ts:48-66 | client meetings, project reviews and drinks only on weekdays; meetings with parents only at weekends |
| `MockEvents.DailyStaples` | src/mocks/events.ts:37-64 | weekdays have lunch with the team and the stand-up; weekend days have the family lunch and the evening with the wife |
| `MockEvents.OneBreakfast` | src/mocks/events.ts:36 | every day has exactly one breakfast at 08:30 - 09:00 |
| `MockEvents.BreakfastOnlyAtMeals` | src/mocks/events.ts:36 | that breakfast is the meals section's, once, and no other section has one |
| `MockEvents.BreakfastAtHalfPastEight` | src/mocks/events.ts:36 | any breakfast is at 08:30 - 09:00 |
| `MockEvents.VacationDays` | src/mocks/events.ts:70-75 | the all-day entries are exactly the vacations, each on its own days only |
| `MockEvents.VacationsOnTheirDays` | src/mocks/events.ts:70-75 | summer vacation is on a day iff it is 10–17 July, and the ski trip iff it is 15–20 February |
| `MockEvents.GeneratedEvent` | src/mocks/events.ts:27-75 | each generated event is, on a day of 2026, one of that day's entries, with no description |
| `MockEvents.GeneratedThemes` | src/mocks/events.ts:48-75 | across the generated year, the weekday-only and weekend-only titles and the vacations fall on their days |

## Left out

- React rendering is not modelled: JSX, CSS-module classes, `Modal`, `Button`, the header and the app layout. The re-render and effect-scheduling machinery is left out too; each effect is a method the host calls. The grid's header row and the panel's `D [of] MMMM` heading are labels only.
- The clock is a parameter. "Today" in the provider and in the form becomes `today`. The form reads a UTC date; that is the caller's concern. `Date.now()` for created ids becomes `now`.
- Randomness is a parameter. The base-36 random suffix of created ids becomes `suffix`. Each `Math.random()` test in the generator becomes a field of the per-day `MockEvents.DayDraws` oracle, and the sport pick is an index below 5. Draws a day does not reach are ignored, so their order and number are not modelled.
- `updateEvent` and `deleteEvent` are not modelled: the provider in src/context/CalendarContext.tsx does not define them. An edit is the recorded call `UpdateEvent`, and the store's list is unchanged by it.
- Time zones are not modelled. `new Date('YYYY-MM-DD')` reads as UTC, while `getMonth()`/`getFullYear()` read local time.
- `Sidebar.EventCountForMonth`: reads year and month straight from the date string, so it does not model the local-time shift of a UTC midnight.
- dayjs and `new Date` parse more inputs than the strict `YYYY-MM-DD` of `Dates.ParseDate` (other layouts, time parts, out-of-range days rolled over); the model reads only well-formed full dates. The day's time of day is dropped throughout.
- `Dates.AddYears` and `Dates.WithMonthIndex`: clamp the day to the target month's length, as dayjs does; the source's contract speaks only of year and month, and the clamping is library behaviour.
- The character counters of `Input` and `TextArea` are presentational only; their warning threshold is a floating-point product.
- JavaScript strings are UTF-16. Here `length` is the number of characters of a `seq<char>`, not of UTF-16 code units, and `EventForm.StringLess` compares characters by code point where JavaScript's `<` compares UTF-16 code units. The two orders differ only above U+FFFF, never on `HH:MM` (`EventForm.ClockOrder`).
- `ConfirmDialog` and the DayPanel's add button are not part of the core: they are presentational, or have no handler in src/components/DayPanel/DayPanel.tsx.
- Whether every stored event passes the form's validation is not a store invariant. The seed time `19:00 - 10:00` does not (`EventForm.OvernightRangeRejected`).
- `MockEvents.Walk`: is generic over the day's entries. The themed day plan is supplied by `MockEvents.GenerateEvents`, and the final value of the id counter is stated through the loop invariant and `MockEvents.IdsDistinct`, not returned.
- The unused pool entries in the generator ("Stakeholder Sync", "Winter Break", …) are kept as constants; nothing picks them.
- `MOCK_EVENTS` is not imported by the provider in src/context/CalendarContext.tsx, so the store's seed is only the four events of `CalendarContext.InitialEvents`.
- `DayPanel.AgreesWithGrid` holds only because `Dates.ParseDate` reads `YYYY-MM-DD` strictly. dayjs also reads "2026-6-15" or "2026-06-15 10:00" as 15 June and rolls "2026-02-30" over to 2 March. For such a stored string the grid (src/components/CalendarGrid/CalendarGrid.tsx:38) lists the event and the panel's string comparison (src/components/DayPanel/DayPanel.tsx:11) does not. Every date the app itself stores is zero-padded `YYYY-MM-DD`.

## Notes

- The time inputs do not survive an edit of a mock vacation. `"All Day"` fills neither time input (`EventForm.AllDayHasNoTimes`), so saving such an event unchanged stores it with no time.
- Moving back a year and then forward a year moves 29 February to the 28th (`Sidebar.LeapDayRoundTrip`).
