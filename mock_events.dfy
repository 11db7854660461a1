/** The mock event generator (src/mocks/events.ts): a walk over every day
    of 2026 that emits themed events with ids "1", "2", … in order. Each
    `Math.random()` test of a day becomes a field of that day's draws,
    supplied by an oracle; the rest is fixed by the weekday and the date.

    The day's events are computed by `DayEntries`, which follows the
    source's branches in its order; `GenerateEvents` is the source's loop
    over the days, with the id counter, pushing that day's events. */
module MockEvents {
  import opened Wrappers
  import opened Text
  import opened Dates
  import opened Types
  import opened Seqs

  const MorningSports: seq<string> := ["Tennis Match", "Swimming Session", "Bike Ride", "Gym Workout", "Yoga Morning"]
  const Meals: seq<string> := ["Breakfast", "Lunch with Team", "Dinner with Wife", "Family Dinner"]
  const Work: seq<string> := ["Daily Stand-up", "Project Review", "Client Meeting", "Stakeholder Sync", "Deep Work", "Code Review"]
  const FamilyFriends: seq<string> := ["Coffee with Friends", "Meeting with Parents", "Family Weekend Activity", "Evening with Wife", "Drinks with Friends"]
  const Vacations: seq<string> := ["Summer Vacation", "Winter Break", "Ski Trip", "Weekend Getaway", "Beach Trip"]
  const FamilyLunch := "Family Lunch"

  const MorningTime := "07:00 - 08:30"
  const BreakfastTime := "08:30 - 09:00"
  const LunchTime := "12:30 - 13:30"
  const FamilyLunchTime := "13:00 - 14:30"
  const DinnerTime := "19:30 - 21:00"
  const StandUpTime := "10:00 - 10:30"
  const ClientTime := "14:00 - 15:00"
  const ReviewTime := "16:00 - 17:00"
  const ParentsTime := "11:00 - 13:00"
  const EveningTime := "19:00 - 22:00"
  const DrinksTime := "19:30 - 21:30"
  const AllDay := "All Day"

  const CurrentYear := 2026
  const FirstDay: Date := CivilDate(2026, 1, 1)
  const LastDay: Date := CivilDate(2026, 12, 31)
  const DaysInRun := 365

  type SportIndex = i: nat | i < 5

  /** One day's random outcomes: whether each threshold test passed, and
      the sport picked. A day's branches ignore the draws they do not
      reach. */
  datatype DayDraws = DayDraws(
    morning: bool, sport: SportIndex, dinner: bool,
    client: bool, review: bool, parents: bool, drinks: bool)

  /** An event before it is numbered and dated. */
  datatype Entry = Entry(title: string, time: string)

  predicate IsWeekend(dayOfWeek: int) {
    dayOfWeek == 0 || dayOfWeek == 6
  }

  function MorningEntries(r: DayDraws): seq<Entry> {
    if r.morning then [Entry(MorningSports[r.sport], MorningTime)] else []
  }

  function MealEntries(dayOfWeek: int, r: DayDraws): seq<Entry> {
    [Entry(Meals[0], BreakfastTime)] +
    (if dayOfWeek != 0 && dayOfWeek != 6 then [Entry(Meals[1], LunchTime)]
     else [Entry(FamilyLunch, FamilyLunchTime)]) +
    (if r.dinner then [Entry(if IsWeekend(dayOfWeek) then Meals[3] else Meals[2], DinnerTime)] else [])
  }

  function WorkEntries(dayOfWeek: int, r: DayDraws): seq<Entry> {
    if 1 <= dayOfWeek <= 5 then
      [Entry(Work[0], StandUpTime)] +
      (if r.client then [Entry(Work[2], ClientTime)] else []) +
      (if r.review then [Entry(Work[1], ReviewTime)] else [])
    else []
  }

  function SocialEntries(dayOfWeek: int, r: DayDraws): seq<Entry> {
    if IsWeekend(dayOfWeek) then
      (if r.parents then [Entry(FamilyFriends[1], ParentsTime)] else []) +
      [Entry(FamilyFriends[3], EveningTime)]
    else if r.drinks then [Entry(FamilyFriends[4], DrinksTime)]
    else []
  }

  /** `month()` is zero-based: 6 is July, 1 is February. */
  function VacationEntries(d: Date): seq<Entry> {
    (if MonthIndex(d) == 6 && 10 <= d.day <= 17 then [Entry(Vacations[0], AllDay)] else []) +
    (if MonthIndex(d) == 1 && 15 <= d.day <= 20 then [Entry(Vacations[2], AllDay)] else [])
  }

  /** The events one day emits, in the order the source pushes them. */
  function DayEntries(d: Date, r: DayDraws): seq<Entry> {
    Schedule(DayOfWeek(d), d, r)
  }

  /** The day's sections in order, for the day of the week `dayOfWeek`. */
  function Schedule(dayOfWeek: int, d: Date, r: DayDraws): seq<Entry> {
    MorningEntries(r) + MealEntries(dayOfWeek, r) + WorkEntries(dayOfWeek, r) +
    SocialEntries(dayOfWeek, r) + VacationEntries(d)
  }

  /** The generator's day plan: each day's entries under that day's draws. */
  function Plan(draws: Date -> DayDraws): Date -> seq<Entry> {
    (d: Date) => DayEntries(d, draws(d))
  }

  /** Entries numbered from `firstId` and dated `date`. */
  function Label(entries: seq<Entry>, date: string, firstId: nat): (events: seq<CalendarEvent>)
    ensures |events| == |entries|
    ensures forall i :: 0 <= i < |entries| ==>
      events[i] == CalendarEvent(NatToString(firstId + i), entries[i].title, date, None, Some(entries[i].time))
  {
    seq(|entries|, i requires 0 <= i < |entries| =>
      CalendarEvent(NatToString(firstId + i), entries[i].title, date, None, Some(entries[i].time)))
  }

  /** The `k`-th day of the walk. */
  function Day(k: nat): Date {
    AddDays(FirstDay, k)
  }

  /** The `YYYY-MM-DD` string of the `k`-th day. */
  function DateString(k: nat): string {
    Format(Day(k))
  }

  /** The events of the first `n` days of a walk that emits `plan`'s
      entries on each day, dated by `dateOf` and numbered from 1. The walk
      the generator makes dates them with `DateString`; the facts about
      ids and origins hold for any dating. */
  function Run(plan: Date -> seq<Entry>, dateOf: nat -> string, n: nat): seq<CalendarEvent> {
    if n == 0 then []
    else
      var prev := Run(plan, dateOf, n - 1);
      prev + Label(plan(Day(n - 1)), dateOf(n - 1), |prev| + 1)
  }

  /** For each event of the first `n` days: the day that emitted it and
      its position among that day's entries. */
  function Origins(plan: Date -> seq<Entry>, n: nat): seq<(nat, nat)> {
    if n == 0 then []
    else Origins(plan, n - 1) + seq(|plan(Day(n - 1))|, j => (n - 1, j))
  }

  // ---------------------------------------------------------------------
  // The loop

  /** `generateEvents`: one pass over 2026 from the first of January to the
      thirty-first of December, inclusive. */
  method GenerateEvents(draws: Date -> DayDraws) returns (events: seq<CalendarEvent>)
    ensures events == Run(Plan(draws), DateString, DaysInRun)
  {
    events := Walk(Plan(draws));
  }

  /** The walk over the days, whatever each day pushes: the date advances
      one day per pass and the counter carries across days. */
  method Walk(plan: Date -> seq<Entry>) returns (events: seq<CalendarEvent>)
    ensures events == Run(plan, DateString, DaysInRun)
  {
    events := [];
    var id := 1;
    var currentDay := FirstDay;
    ghost var k := 0;
    RunStaysInYear(k);
    while Before(currentDay, LastDay) || currentDay == LastDay
      invariant k <= DaysInRun && currentDay == Day(k)
      invariant events == Run(plan, DateString, k) && id == |events| + 1
      invariant Before(currentDay, LastDay) || currentDay == LastDay <==> k < DaysInRun
      decreases DaysInRun - k
    {
      events, id := PushDay(events, id, Format(currentDay), plan(currentDay));
      currentDay := NextDay(currentDay);
      k := k + 1;
      RunStaysInYear(k);
    }
  }

  /** One day's pushes: each entry numbered with the counter, which then
      moves past it. */
  method PushDay(events: seq<CalendarEvent>, id: nat, date: string, entries: seq<Entry>)
    returns (events': seq<CalendarEvent>, id': nat)
    ensures events' == events + Label(entries, date, id)
    ensures id' == id + |entries|
  {
    events', id' := events, id;
    for j := 0 to |entries|
      invariant |events'| == |events| + j && events'[..|events|] == events
      invariant id' == id + j
      invariant forall i :: 0 <= i < j ==>
        events'[|events| + i] == CalendarEvent(NatToString(id + i), entries[i].title, date, None, Some(entries[i].time))
    {
      events' := events' + [CalendarEvent(NatToString(id'), entries[j].title, date, None, Some(entries[j].time))];
      id' := id' + 1;
    }
    assert events'[|events|..] == Label(entries, date, id);
    assert events' == events'[..|events|] + events'[|events|..];
  }

  /** The loop test holds exactly for the 365 days of 2026. */
  lemma RunStaysInYear(k: nat)
    ensures Before(Day(k), LastDay) || Day(k) == LastDay <==> k < DaysInRun
  {
    AddDaysNumber(FirstDay, k);
    BeforeIffDayNumber(Day(k), LastDay);
    if Day(k) != LastDay && DayNumber(Day(k)) == DayNumber(LastDay) {
      DayNumberInjective(Day(k), LastDay);
    }
  }

  // ---------------------------------------------------------------------
  // The walk: ids, days and dates

  /** Day `k` of the walk is in 2026 and `k` days after the first of
      January, and its string reads back as the day. */
  lemma DayInYear(k: nat)
    requires k < DaysInRun
    ensures Day(k).year == CurrentYear
    ensures DayNumber(Day(k)) == DayNumber(FirstDay) + k
    ensures ParseDate(Format(Day(k))) == Some(Day(k))
  {
    AddDaysNumber(FirstDay, k);
    RunStaysInYear(k);
    if Day(k).year < CurrentYear {
      BeforeDayNumber(Day(k), FirstDay);
    }
    if Day(k).year > CurrentYear {
      BeforeDayNumber(LastDay, Day(k));
      BeforeIffDayNumber(Day(k), LastDay);
    }
    ParseFormat(Day(k));
  }

  /** The walk's days strictly ascend, so no day is visited twice. */
  lemma DaysAscend(k: nat, k': nat)
    requires k < k'
    ensures Before(Day(k), Day(k'))
  {
    AddDaysNumber(FirstDay, k);
    AddDaysNumber(FirstDay, k');
    BeforeIffDayNumber(Day(k), Day(k'));
  }

  /** Every day of 2026 is visited: the day's position in the walk. */
  function DayIndex(d: Date): (k: nat)
    requires d.year == CurrentYear
    ensures k < DaysInRun && Day(k) == d
  {
    VisitedOnce(d);
    DayNumber(d) - DayNumber(FirstDay)
  }

  lemma VisitedOnce(d: Date)
    requires d.year == CurrentYear
    ensures 0 <= DayNumber(d) - DayNumber(FirstDay) < DaysInRun
    ensures Day(DayNumber(d) - DayNumber(FirstDay)) == d
  {
    PositionInYear(d);
    var k := DayNumber(d) - DayNumber(FirstDay);
    assert Day(k) == d by {
      DayInYear(k);
      DayNumberInjective(Day(k), d);
    }
  }

  /** A day of 2026 lies between the first and the last day of the walk. */
  lemma PositionInYear(d: Date)
    requires d.year == CurrentYear
    ensures 0 <= DayNumber(d) - DayNumber(FirstDay) < DaysInRun
  {
    if d != FirstDay {
      BeforeDayNumber(FirstDay, d);
    }
    if d != LastDay {
      BeforeDayNumber(d, LastDay);
    }
  }

  /** The ids of a walk are "1", "2", … in order, with no gaps. */
  lemma {:induction false} RunIds(plan: Date -> seq<Entry>, dateOf: nat -> string, n: nat)
    ensures forall i :: 0 <= i < |Run(plan, dateOf, n)| ==> Run(plan, dateOf, n)[i].id == NatToString(i + 1)
  {
    if n > 0 {
      RunIds(plan, dateOf, n - 1);
      var prev := Run(plan, dateOf, n - 1);
      var block := Label(plan(Day(n - 1)), dateOf(n - 1), |prev| + 1);
      assert Run(plan, dateOf, n) == prev + block;
    }
  }

  /** So no two ids are equal; the last id is the number of events. */
  lemma IdsDistinct(plan: Date -> seq<Entry>, dateOf: nat -> string, n: nat, i: int, j: int)
    requires 0 <= i < |Run(plan, dateOf, n)| && 0 <= j < |Run(plan, dateOf, n)| && i != j
    ensures Run(plan, dateOf, n)[i].id != Run(plan, dateOf, n)[j].id
    ensures Run(plan, dateOf, n)[|Run(plan, dateOf, n)| - 1].id == NatToString(|Run(plan, dateOf, n)|)
  {
    RunIds(plan, dateOf, n);
    if NatToString(i + 1) == NatToString(j + 1) {
      NatToStringInjective(i + 1, j + 1);
    }
  }

  /** The entry an origin names. */
  predicate IsOrigin(plan: Date -> seq<Entry>, dateOf: nat -> string, n: nat, o: (nat, nat), e: CalendarEvent) {
    o.0 < n && o.1 < |plan(Day(o.0))| &&
    e.title == plan(Day(o.0))[o.1].title && e.date == dateOf(o.0) &&
    e.description == None && e.time == Some(plan(Day(o.0))[o.1].time)
  }

  /** Each event of a walk is an entry of the day it came from, dated that
      day; the days of the events never go back. */
  lemma {:induction false} RunOrigins(plan: Date -> seq<Entry>, dateOf: nat -> string, n: nat)
    ensures |Origins(plan, n)| == |Run(plan, dateOf, n)|
    ensures forall i :: 0 <= i < |Run(plan, dateOf, n)| ==> IsOrigin(plan, dateOf, n, Origins(plan, n)[i], Run(plan, dateOf, n)[i])
    ensures forall i, j :: 0 <= i <= j < |Run(plan, dateOf, n)| ==> Origins(plan, n)[i].0 <= Origins(plan, n)[j].0
  {
    OriginsLength(plan, dateOf, n);
    OriginsAscend(plan, n);
    if n > 0 {
      RunOrigins(plan, dateOf, n - 1);
      forall i | 0 <= i < |Run(plan, dateOf, n)|
        ensures IsOrigin(plan, dateOf, n, Origins(plan, n)[i], Run(plan, dateOf, n)[i])
      {
        if i < |Run(plan, dateOf, n - 1)| {
          EarlierOrigin(plan, dateOf, n, i);
        } else {
          BlockOrigin(plan, dateOf, n, i);
        }
      }
    }
  }

  /** An event of the earlier days keeps its origin when a day is added. */
  lemma EarlierOrigin(plan: Date -> seq<Entry>, dateOf: nat -> string, n: nat, i: nat)
    requires n > 0 && |Origins(plan, n - 1)| == |Run(plan, dateOf, n - 1)|
    requires i < |Run(plan, dateOf, n - 1)|
    requires IsOrigin(plan, dateOf, n - 1, Origins(plan, n - 1)[i], Run(plan, dateOf, n - 1)[i])
    ensures i < |Origins(plan, n)| && i < |Run(plan, dateOf, n)|
    ensures IsOrigin(plan, dateOf, n, Origins(plan, n)[i], Run(plan, dateOf, n)[i])
  {
    var prev := Run(plan, dateOf, n - 1);
    var block := Label(plan(Day(n - 1)), dateOf(n - 1), |prev| + 1);
    var added: seq<(nat, nat)> := seq(|plan(Day(n - 1))|, j => (n - 1, j));
    assert Run(plan, dateOf, n) == prev + block;
    assert Origins(plan, n) == Origins(plan, n - 1) + added;
  }

  /** An event of the added day comes from that day's entry at its place
      in the block. */
  lemma BlockOrigin(plan: Date -> seq<Entry>, dateOf: nat -> string, n: nat, i: nat)
    requires n > 0 && |Origins(plan, n - 1)| == |Run(plan, dateOf, n - 1)|
    requires |Run(plan, dateOf, n - 1)| <= i < |Run(plan, dateOf, n)|
    ensures i < |Origins(plan, n)|
    ensures IsOrigin(plan, dateOf, n, Origins(plan, n)[i], Run(plan, dateOf, n)[i])
  {
    var prev := Run(plan, dateOf, n - 1);
    var added: seq<(nat, nat)> := seq(|plan(Day(n - 1))|, j => (n - 1, j));
    assert Run(plan, dateOf, n) == prev + Label(plan(Day(n - 1)), dateOf(n - 1), |prev| + 1);
    assert Origins(plan, n) == Origins(plan, n - 1) + added;
    LabelOrigin(plan, dateOf, n, prev, Run(plan, dateOf, n), Origins(plan, n), i);
  }

  /** The same, for any earlier events `prev` followed by day `n - 1`'s
      block, with their origins. */
  lemma LabelOrigin(plan: Date -> seq<Entry>, dateOf: nat -> string, n: nat,
                    prev: seq<CalendarEvent>, run: seq<CalendarEvent>, origins: seq<(nat, nat)>, i: nat)
    requires n > 0
    requires run == prev + Label(plan(Day(n - 1)), dateOf(n - 1), |prev| + 1)
    requires |origins| == |run|
    requires forall k :: |prev| <= k < |origins| ==> origins[k] == (n - 1, k - |prev|)
    requires |prev| <= i < |run|
    ensures IsOrigin(plan, dateOf, n, origins[i], run[i])
  {
    var block := Label(plan(Day(n - 1)), dateOf(n - 1), |prev| + 1);
    assert run[i] == block[i - |prev|];
  }

  /** One origin per event. */
  lemma {:induction false} OriginsLength(plan: Date -> seq<Entry>, dateOf: nat -> string, n: nat)
    ensures |Origins(plan, n)| == |Run(plan, dateOf, n)|
  {
    if n > 0 {
      OriginsLength(plan, dateOf, n - 1);
    }
  }

  /** The origins' days are the walked days, in order. */
  lemma {:induction false} OriginsAscend(plan: Date -> seq<Entry>, n: nat)
    ensures forall i :: 0 <= i < |Origins(plan, n)| ==> Origins(plan, n)[i].0 < n
    ensures forall i, j :: 0 <= i <= j < |Origins(plan, n)| ==> Origins(plan, n)[i].0 <= Origins(plan, n)[j].0
  {
    if n > 0 {
      OriginsAscend(plan, n - 1);
      var origins := Origins(plan, n - 1);
      var added: seq<(nat, nat)> := seq(|plan(Day(n - 1))|, j => (n - 1, j));
      assert Origins(plan, n) == origins + added;
    }
  }

  /** Every event of the first `n` days is dated, readably, with the day
      it came from. */
  lemma RunDates(plan: Date -> seq<Entry>, n: nat, i: int)
    requires n <= DaysInRun && 0 <= i < |Run(plan, DateString, n)|
    ensures |Origins(plan, n)| == |Run(plan, DateString, n)|
    ensures Origins(plan, n)[i].0 < n && Day(Origins(plan, n)[i].0).year == CurrentYear
    ensures ParseDate(Run(plan, DateString, n)[i].date) == Some(Day(Origins(plan, n)[i].0))
  {
    RunOrigins(plan, DateString, n);
    assert IsOrigin(plan, DateString, n, Origins(plan, n)[i], Run(plan, DateString, n)[i]);
    DayInYear(Origins(plan, n)[i].0);
  }

  /** Every generated event is dated in 2026, and later events are never
      dated earlier. */
  lemma DatesAscend(plan: Date -> seq<Entry>, n: nat, i: int, j: int)
    requires n <= DaysInRun && 0 <= i <= j < |Run(plan, DateString, n)|
    ensures ParseDate(Run(plan, DateString, n)[i].date).Some?
    ensures ParseDate(Run(plan, DateString, n)[i].date).value.year == CurrentYear
    ensures ParseDate(Run(plan, DateString, n)[j].date).Some?
    ensures !Before(ParseDate(Run(plan, DateString, n)[j].date).value,
                    ParseDate(Run(plan, DateString, n)[i].date).value)
  {
    RunDates(plan, n, i);
    RunDates(plan, n, j);
    RunOrigins(plan, DateString, n);
    DaysNeverGoBack(Origins(plan, n)[i].0, Origins(plan, n)[j].0);
  }

  lemma DaysNeverGoBack(k: nat, k': nat)
    requires k <= k'
    ensures !Before(Day(k'), Day(k))
  {
    AddDaysNumber(FirstDay, k);
    AddDaysNumber(FirstDay, k');
    BeforeIffDayNumber(Day(k'), Day(k));
  }

  // ---------------------------------------------------------------------
  // The events of one day

  predicate HasDate(e: CalendarEvent, date: string) {
    e.date == date
  }

  function Dated(date: string): CalendarEvent -> bool {
    e => HasDate(e, date)
  }

  /** The events whose date string is `date`. */
  function EventsDated(events: seq<CalendarEvent>, date: string): seq<CalendarEvent> {
    Filter(events, Dated(date))
  }

  /** Events read back as title and time. */
  function EntriesOf(events: seq<CalendarEvent>): (entries: seq<Entry>)
    ensures |entries| == |events|
    ensures forall i :: 0 <= i < |events| ==> entries[i] == Entry(events[i].title, events[i].time.GetOr(""))
  {
    seq(|events|, i requires 0 <= i < |events| => Entry(events[i].title, events[i].time.GetOr("")))
  }

  /** Distinct days of the walk have distinct date strings. */
  lemma DateStringInjective(k: nat, k': nat)
    requires k < DaysInRun && k' < DaysInRun && DateString(k) == DateString(k')
    ensures k == k'
  {
    DayInYear(k);
    DayInYear(k');
    FormatInjective(Day(k), Day(k'));
  }

  /** Before day `k` of a walk whose dates do not repeat is reached, no
      event is dated day `k`. */
  lemma {:induction false} NoBlockYet(plan: Date -> seq<Entry>, dateOf: nat -> string, k: nat, n: nat)
    requires n <= k < DaysInRun
    requires forall j :: 0 <= j < DaysInRun && j != k ==> dateOf(j) != dateOf(k)
    ensures EventsDated(Run(plan, dateOf, n), dateOf(k)) == []
  {
    if n > 0 {
      NoBlockYet(plan, dateOf, k, n - 1);
      var prev := Run(plan, dateOf, n - 1);
      var block := Label(plan(Day(n - 1)), dateOf(n - 1), |prev| + 1);
      assert Run(plan, dateOf, n) == prev + block;
      assert dateOf(n - 1) != dateOf(k);
      BlockStep(prev, block, dateOf(n - 1), dateOf(k));
    }
  }

  /** Once day `k` is past, the events dated day `k` are exactly the block
      that day pushed. */
  lemma {:induction false} BlockUpTo(plan: Date -> seq<Entry>, dateOf: nat -> string, k: nat, n: nat)
    requires k < n <= DaysInRun
    requires forall j :: 0 <= j < DaysInRun && j != k ==> dateOf(j) != dateOf(k)
    ensures EventsDated(Run(plan, dateOf, n), dateOf(k)) == Label(plan(Day(k)), dateOf(k), |Run(plan, dateOf, k)| + 1)
  {
    if n - 1 == k {
      BlockArrives(plan, dateOf, k);
    } else {
      var prev := Run(plan, dateOf, n - 1);
      var block := Label(plan(Day(n - 1)), dateOf(n - 1), |prev| + 1);
      assert Run(plan, dateOf, n) == prev + block;
      BlockUpTo(plan, dateOf, k, n - 1);
      assert dateOf(n - 1) != dateOf(k);
      BlockStep(prev, block, dateOf(n - 1), dateOf(k));
    }
  }

  /** Day `k`'s events are dated day `k` once that day is walked. */
  lemma BlockArrives(plan: Date -> seq<Entry>, dateOf: nat -> string, k: nat)
    requires k < DaysInRun
    requires forall j :: 0 <= j < DaysInRun && j != k ==> dateOf(j) != dateOf(k)
    ensures EventsDated(Run(plan, dateOf, k + 1), dateOf(k)) == Label(plan(Day(k)), dateOf(k), |Run(plan, dateOf, k)| + 1)
  {
    var prev := Run(plan, dateOf, k);
    var block := Label(plan(Day(k)), dateOf(k), |prev| + 1);
    assert Run(plan, dateOf, k + 1) == prev + block;
    NoBlockYet(plan, dateOf, k, k);
    BlockStep(prev, block, dateOf(k), dateOf(k));
    assert EventsDated(prev, dateOf(k)) + block == block;
  }

  /** Appending a block of events dated `blockDate` adds the whole block to
      the events dated `date` when the two dates agree, and nothing
      otherwise. */
  lemma BlockStep(prev: seq<CalendarEvent>, block: seq<CalendarEvent>, blockDate: string, date: string)
    requires forall i :: 0 <= i < |block| ==> block[i].date == blockDate
    ensures blockDate == date ==> EventsDated(prev + block, date) == EventsDated(prev, date) + block
    ensures blockDate != date ==> EventsDated(prev + block, date) == EventsDated(prev, date)
  {
    FilterConcat(prev, block, Dated(date));
    if blockDate == date {
      FilterAll(block, Dated(date));
    } else {
      FilterNone(block, Dated(date));
      assert EventsDated(prev, date) + [] == EventsDated(prev, date);
    }
  }

  /** Each day of 2026 is dated once: the events of a walk over the year
      dated that day are the block the day pushed. */
  lemma RunDay(plan: Date -> seq<Entry>, d: Date)
    requires d.year == CurrentYear
    ensures EventsDated(Run(plan, DateString, DaysInRun), Format(d)) ==
      Label(plan(d), Format(d), |Run(plan, DateString, DayIndex(d))| + 1)
  {
    var k := DayIndex(d);
    forall j | 0 <= j < DaysInRun && j != k
      ensures DateString(j) != DateString(k)
    {
      if DateString(j) == DateString(k) {
        DateStringInjective(j, k);
      }
    }
    BlockUpTo(plan, DateString, k, DaysInRun);
  }

  lemma EntriesOfLabel(entries: seq<Entry>, date: string, firstId: nat)
    ensures EntriesOf(Label(entries, date, firstId)) == entries
  {
  }

  /** The events the generator dates any day of 2026 read back as that
      day's entries, in the order they were pushed. */
  lemma GeneratedDay(draws: Date -> DayDraws, d: Date)
    requires d.year == CurrentYear
    ensures EntriesOf(EventsDated(Run(Plan(draws), DateString, DaysInRun), Format(d))) == DayEntries(d, draws(d))
  {
    var start := |Run(Plan(draws), DateString, DayIndex(d))| + 1;
    var entries := Plan(draws)(d);
    RunDay(Plan(draws), d);
    EntriesOfLabel(entries, Format(d), start);
    assert entries == DayEntries(d, draws(d));
  }

  // ---------------------------------------------------------------------
  // What a day holds

  predicate IsWeekday(dayOfWeek: int) {
    1 <= dayOfWeek <= 5
  }

  // What each section can hold.

  lemma MorningHolds(r: DayDraws, e: Entry)
    requires e in MorningEntries(r)
    ensures r.morning && e == Entry(MorningSports[r.sport], MorningTime)
  {
  }

  lemma MealsHold(w: int, r: DayDraws, e: Entry)
    requires e in MealEntries(w, r)
    ensures e == Entry("Breakfast", BreakfastTime) ||
            (w != 0 && w != 6 && e == Entry("Lunch with Team", LunchTime)) ||
            (IsWeekend(w) && e == Entry("Family Lunch", FamilyLunchTime)) ||
            (r.dinner && IsWeekend(w) && e == Entry("Family Dinner", DinnerTime)) ||
            (r.dinner && !IsWeekend(w) && e == Entry("Dinner with Wife", DinnerTime))
  {
  }

  lemma WorkHolds(w: int, r: DayDraws, e: Entry)
    requires e in WorkEntries(w, r)
    ensures 1 <= w <= 5
    ensures e == Entry("Daily Stand-up", StandUpTime) ||
            (r.client && e == Entry("Client Meeting", ClientTime)) ||
            (r.review && e == Entry("Project Review", ReviewTime))
  {
  }

  lemma SocialHolds(w: int, r: DayDraws, e: Entry)
    requires e in SocialEntries(w, r)
    ensures (IsWeekend(w) && r.parents && e == Entry("Meeting with Parents", ParentsTime)) ||
            (IsWeekend(w) && e == Entry("Evening with Wife", EveningTime)) ||
            (!IsWeekend(w) && r.drinks && e == Entry("Drinks with Friends", DrinksTime))
  {
  }

  lemma VacationsHold(d: Date, e: Entry)
    requires e in VacationEntries(d)
    ensures (MonthIndex(d) == 6 && 10 <= d.day <= 17 && e == Entry("Summer Vacation", AllDay)) ||
            (MonthIndex(d) == 1 && 15 <= d.day <= 20 && e == Entry("Ski Trip", AllDay))
  {
  }

  /** An entry of the day comes from one of its five sections. */
  lemma InSomeSection(d: Date, r: DayDraws, e: Entry)
    requires e in DayEntries(d, r)
    ensures var w := DayOfWeek(d);
      e in MorningEntries(r) || e in MealEntries(w, r) || e in WorkEntries(w, r) ||
      e in SocialEntries(w, r) || e in VacationEntries(d)
  {
  }

  /** Client meetings, project reviews and drinks with friends happen only
      on weekdays, meetings with parents only at weekends. */
  lemma WeekdayOnlyEntries(d: Date, r: DayDraws, e: Entry)
    requires e in DayEntries(d, r)
    ensures e.title == "Client Meeting" || e.title == "Project Review" || e.title == "Drinks with Friends" ==>
      IsWeekday(DayOfWeek(d))
    ensures e.title == "Meeting with Parents" ==> IsWeekend(DayOfWeek(d))
  {
    var w := DayOfWeek(d);
    InSomeSection(d, r, e);
    if e in MorningEntries(r) {
      MorningHolds(r, e);
    } else if e in MealEntries(w, r) {
      MealsHold(w, r, e);
    } else if e in WorkEntries(w, r) {
      WorkHolds(w, r, e);
    } else if e in SocialEntries(w, r) {
      SocialHolds(w, r, e);
    } else {
      VacationsHold(d, e);
    }
  }

  /** Every weekday has lunch with the team and the stand-up; every weekend
      day has the family lunch and the evening with the wife. */
  lemma DailyStaples(d: Date, r: DayDraws)
    ensures IsWeekday(DayOfWeek(d)) ==>
      Entry("Lunch with Team", LunchTime) in DayEntries(d, r) && Entry("Daily Stand-up", StandUpTime) in DayEntries(d, r)
    ensures IsWeekend(DayOfWeek(d)) ==>
      Entry("Family Lunch", FamilyLunchTime) in DayEntries(d, r) && Entry("Evening with Wife", EveningTime) in DayEntries(d, r)
  {
    var w := DayOfWeek(d);
    if IsWeekday(w) {
      assert Entry("Lunch with Team", LunchTime) in MealEntries(w, r);
      assert Entry("Daily Stand-up", StandUpTime) in WorkEntries(w, r);
    } else {
      assert Entry("Family Lunch", FamilyLunchTime) in MealEntries(w, r);
      assert Entry("Evening with Wife", EveningTime) in SocialEntries(w, r);
    }
  }

  /** Every day has exactly one breakfast, at half past eight. */
  lemma OneBreakfast(d: Date, r: DayDraws)
    ensures multiset(DayEntries(d, r))[Entry("Breakfast", BreakfastTime)] == 1
  {
    var w := DayOfWeek(d);
    var b := Entry("Breakfast", BreakfastTime);
    BreakfastOnlyAtMeals(w, d, r);
    assert Schedule(w, d, r) ==
      MorningEntries(r) + MealEntries(w, r) + WorkEntries(w, r) + SocialEntries(w, r) + VacationEntries(d);
  }

  lemma BreakfastOnlyAtMeals(w: int, d: Date, r: DayDraws)
    ensures var b := Entry("Breakfast", BreakfastTime);
      multiset(MealEntries(w, r))[b] == 1 && multiset(MorningEntries(r))[b] == 0 &&
      multiset(WorkEntries(w, r))[b] == 0 && multiset(SocialEntries(w, r))[b] == 0 &&
      multiset(VacationEntries(d))[b] == 0
  {
    var b := Entry("Breakfast", BreakfastTime);
    assert multiset(MealEntries(w, r))[b] == 1;
    if b in MorningEntries(r) {
      MorningHolds(r, b);
    }
    if b in WorkEntries(w, r) {
      WorkHolds(w, r, b);
    }
    if b in SocialEntries(w, r) {
      SocialHolds(w, r, b);
    }
    if b in VacationEntries(d) {
      VacationsHold(d, b);
    }
  }

  /** A breakfast is always the half past eight one. */
  lemma BreakfastAtHalfPastEight(d: Date, r: DayDraws, e: Entry)
    requires e in DayEntries(d, r) && e.title == "Breakfast"
    ensures e == Entry("Breakfast", BreakfastTime)
  {
    var w := DayOfWeek(d);
    InSomeSection(d, r, e);
    if e in MorningEntries(r) {
      MorningHolds(r, e);
    } else if e in MealEntries(w, r) {
      MealsHold(w, r, e);
    } else if e in WorkEntries(w, r) {
      WorkHolds(w, r, e);
    } else if e in SocialEntries(w, r) {
      SocialHolds(w, r, e);
    } else {
      VacationsHold(d, e);
    }
  }

  /** The all-day entries are exactly the vacations, and each vacation
      falls only on its own days. */
  lemma VacationDays(d: Date, r: DayDraws, e: Entry)
    requires e in DayEntries(d, r)
    ensures e.time == AllDay <==> e.title == "Summer Vacation" || e.title == "Ski Trip"
    ensures e.title == "Summer Vacation" ==> MonthIndex(d) == 6 && 10 <= d.day <= 17 && e.time == AllDay
    ensures e.title == "Ski Trip" ==> MonthIndex(d) == 1 && 15 <= d.day <= 20 && e.time == AllDay
  {
    var w := DayOfWeek(d);
    InSomeSection(d, r, e);
    if e in MorningEntries(r) {
      MorningHolds(r, e);
    } else if e in MealEntries(w, r) {
      MealsHold(w, r, e);
    } else if e in WorkEntries(w, r) {
      WorkHolds(w, r, e);
    } else if e in SocialEntries(w, r) {
      SocialHolds(w, r, e);
    } else {
      VacationsHold(d, e);
    }
  }

  /** And each of those days has its vacation, whatever the draws. */
  lemma VacationsOnTheirDays(d: Date, r: DayDraws)
    ensures MonthIndex(d) == 6 && 10 <= d.day <= 17 <==> Entry("Summer Vacation", AllDay) in DayEntries(d, r)
    ensures MonthIndex(d) == 1 && 15 <= d.day <= 20 <==> Entry("Ski Trip", AllDay) in DayEntries(d, r)
  {
    var summer := Entry("Summer Vacation", AllDay);
    var ski := Entry("Ski Trip", AllDay);
    if MonthIndex(d) == 6 && 10 <= d.day <= 17 {
      assert summer in VacationEntries(d);
    }
    if MonthIndex(d) == 1 && 15 <= d.day <= 20 {
      assert ski in VacationEntries(d);
    }
    if summer in DayEntries(d, r) {
      VacationDays(d, r, summer);
    }
    if ski in DayEntries(d, r) {
      VacationDays(d, r, ski);
    }
  }

  // ---------------------------------------------------------------------
  // The generated events

  /** Each generated event is, on a day of 2026, one of that day's entries
      with its title and time and no description. */
  lemma GeneratedEvent(draws: Date -> DayDraws, i: int)
    requires 0 <= i < |Run(Plan(draws), DateString, DaysInRun)|
    ensures var e := Run(Plan(draws), DateString, DaysInRun)[i];
      ParseDate(e.date).Some? && ParseDate(e.date).value.year == CurrentYear &&
      e.description == None && e.time.Some? &&
      Entry(e.title, e.time.value) in DayEntries(ParseDate(e.date).value, draws(ParseDate(e.date).value))
  {
    var plan := Plan(draws);
    RunDates(plan, DaysInRun, i);
    RunOrigins(plan, DateString, DaysInRun);
    var o := Origins(plan, DaysInRun)[i];
    assert IsOrigin(plan, DateString, DaysInRun, o, Run(plan, DateString, DaysInRun)[i]);
    var d := Day(o.0);
    assert plan(d) == DayEntries(d, draws(d));
    assert plan(d)[o.1] in plan(d);
  }

  /** So, across the whole year: client meetings, project reviews and
      drinks fall on weekdays, meetings with parents at weekends, and the
      vacations on their days, all day. */
  lemma GeneratedThemes(draws: Date -> DayDraws, i: int)
    requires 0 <= i < |Run(Plan(draws), DateString, DaysInRun)|
    ensures var e := Run(Plan(draws), DateString, DaysInRun)[i];
      ParseDate(e.date).Some? &&
      var d := ParseDate(e.date).value;
      (e.title == "Client Meeting" || e.title == "Project Review" || e.title == "Drinks with Friends" ==>
         IsWeekday(DayOfWeek(d))) &&
      (e.title == "Meeting with Parents" ==> IsWeekend(DayOfWeek(d))) &&
      (e.title == "Summer Vacation" ==> d.month == 7 && 10 <= d.day <= 17 && e.time == Some(AllDay)) &&
      (e.title == "Ski Trip" ==> d.month == 2 && 15 <= d.day <= 20 && e.time == Some(AllDay))
  {
    var e := Run(Plan(draws), DateString, DaysInRun)[i];
    GeneratedEvent(draws, i);
    var d := ParseDate(e.date).value;
    WeekdayOnlyEntries(d, draws(d), Entry(e.title, e.time.value));
    VacationDays(d, draws(d), Entry(e.title, e.time.value));
  }
}
