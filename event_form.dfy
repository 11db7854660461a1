/** The event form's state and logic (`useEventForm`,
    src/components/EventModal/useEventForm.ts): what the fields hold, how a
    stored time string becomes two time inputs and back, the validation
    rules and the data a successful submit hands on. The hook's state
    becomes the fields of `FormState`; each state setter becomes an
    assignment; the two effects are methods the host calls when their
    dependencies change. Today's date is a parameter. */
module EventForm {
  import opened Wrappers
  import opened Text
  import opened Types

  const MaxTitleLength := 60
  const MaxDescLength := 500

  const TitleRequired := "Title is required"
  const TitleTooLong := "Title must be 60 characters or less"
  const DescriptionTooLong := "Description must be 500 characters or less"
  const DateRequired := "Date is required"
  const TimeOutOfOrder := "End time must be after start time"

  /** One optional message per field; an absent key is `None`. */
  datatype FormErrors = FormErrors(
    title: Option<string>,
    description: Option<string>,
    date: Option<string>,
    time: Option<string>)

  /** `{}` */
  const NoErrors := FormErrors(None, None, None, None)

  // ---------------------------------------------------------------------
  // Time strings

  /** Matches `^\d{2}:\d{2}$` (`\d` is ASCII only). */
  predicate IsClock(s: string) {
    |s| == 5 && IsDigit(s[0]) && IsDigit(s[1]) && s[2] == ':' && IsDigit(s[3]) && IsDigit(s[4])
  }

  /** Matches `\s*-\s*` as a whole: whitespace up to a hyphen (which is
      not whitespace), then only whitespace. */
  predicate IsRangeSeparator(m: string) {
    m != [] &&
    if m[0] == '-' then AllWhitespace(m[1..]) else IsWhitespace(m[0]) && IsRangeSeparator(m[1..])
  }

  /** Matches `^(\d{2}:\d{2})\s*-\s*(\d{2}:\d{2})$`: both groups have fixed
      width, so they are the first and the last five characters. */
  predicate IsClockRange(s: string) {
    |s| >= 11 && IsClock(s[..5]) && IsClock(s[|s| - 5..]) && IsRangeSeparator(s[5..|s| - 5])
  }

  /** The two time inputs; `""` when empty. */
  datatype TimeRange = TimeRange(start: string, end: string)

  /** `parseTimeRange`: a range fills both inputs, a single time only the
      start, anything else (absent, empty, "All Day", malformed) neither.
      The end is never filled without the start. */
  function ParseTimeRange(time: Option<string>): (r: TimeRange)
    ensures r.start == "" || IsClock(r.start)
    ensures r.end == "" || IsClock(r.end)
    ensures r.start != "" <==> time.Some? && (IsClockRange(time.value) || IsClock(time.value))
    ensures r.end != "" <==> time.Some? && IsClockRange(time.value)
    ensures time.Some? && IsClockRange(time.value) ==>
      r.start == time.value[..5] && r.end == time.value[|time.value| - 5..]
    ensures time.Some? && IsClock(time.value) ==> r.start == time.value && r.end == ""
  {
    if time.None? || time.value == "" then TimeRange("", "")
    else if IsClockRange(time.value) then
      TimeRange(time.value[..5], time.value[|time.value| - 5..])
    else if IsClock(time.value) then TimeRange(time.value, "")
    else TimeRange("", "")
  }

  /** The time string a submit stores: `"start - end"`, or `start` alone,
      or nothing when there is no start. */
  function CombineTime(start: string, end: string): Option<string> {
    if start != "" && end != "" then Some(start + " - " + end)
    else if start != "" then Some(start)
    else None
  }

  /** `" - "`, the separator the form writes. */
  lemma SpacedHyphenIsSeparator()
    ensures IsRangeSeparator(" - ")
  {
    assert IsWhitespace(' ');
    assert " - "[1..] == "- ";
    assert AllWhitespace("- "[1..]);
  }

  /** What the time inputs produce comes back unchanged through storing and
      re-reading, except that an end without a start is dropped. */
  lemma TimeRoundTrip(start: string, end: string)
    requires start == "" || IsClock(start)
    requires end == "" || IsClock(end)
    ensures ParseTimeRange(CombineTime(start, end)) ==
      if start == "" then TimeRange("", "") else TimeRange(start, end)
  {
    if start != "" && end != "" {
      var s := start + " - " + end;
      assert s[5..|s| - 5] == " - ";
      SpacedHyphenIsSeparator();
      assert s[..5] == start && s[|s| - 5..] == end;
    }
  }

  /** Conversely, a stored time in the form the form writes is rebuilt
      exactly from the two inputs it fills. */
  lemma CombineParsed(time: string)
    requires IsClock(time) || (|time| == 13 && IsClock(time[..5]) && time[5..8] == " - " && IsClock(time[8..]))
    ensures var r := ParseTimeRange(Some(time)); CombineTime(r.start, r.end) == Some(time)
  {
    if !IsClock(time) {
      assert time[5..|time| - 5] == " - ";
      SpacedHyphenIsSeparator();
      assert time == time[..5] + " - " + time[8..];
    }
  }

  /** The mock generator's "All Day" fills neither time input. */
  lemma AllDayHasNoTimes()
    ensures ParseTimeRange(Some("All Day")) == TimeRange("", "")
  {
    assert !IsClock("All Day");
    assert !IsClockRange("All Day") by {
      assert !IsClock("All Day"[..5]);
    }
  }

  // ---------------------------------------------------------------------
  // Comparing times

  /** JavaScript's `a < b` on strings: lexicographic by character. */
  predicate StringLess(a: string, b: string)
    decreases |a|
  {
    b != [] && (a == [] || a[0] < b[0] || (a[0] == b[0] && StringLess(a[1..], b[1..])))
  }

  /** The string order is a strict order: never both ways. */
  lemma {:induction false} StringLessAsymmetric(a: string, b: string)
    ensures !(StringLess(a, b) && StringLess(b, a))
    decreases |a|
  {
    if a != [] && b != [] && a[0] == b[0] {
      StringLessAsymmetric(a[1..], b[1..]);
    }
  }

  /** A clock "HH:MM" as the number HHMM. */
  function ClockValue(s: string): (v: nat)
    requires IsClock(s)
    ensures v < 10000
  {
    1000 * DigitValue(s[0]) + 100 * DigitValue(s[1]) + 10 * DigitValue(s[3]) + DigitValue(s[4])
  }

  /** On "HH:MM" strings the string order the form uses is the order of
      the times they name. */
  lemma ClockOrder(a: string, b: string)
    requires IsClock(a) && IsClock(b)
    ensures StringLess(a, b) <==> ClockValue(a) < ClockValue(b)
  {
    var a1, b1 := a[1..], b[1..];
    var a2, b2 := a1[1..], b1[1..];
    var a3, b3 := a2[1..], b2[1..];
    var a4, b4 := a3[1..], b3[1..];
    assert a4[1..] == [] && b4[1..] == [];
    assert StringLess(a4, b4) <==> a[4] < b[4];
    assert StringLess(a3, b3) <==> a[3] < b[3] || (a[3] == b[3] && a[4] < b[4]);
    assert StringLess(a2, b2) <==> StringLess(a3, b3);
    assert StringLess(a1, b1) <==> a[1] < b[1] || (a[1] == b[1] && StringLess(a2, b2));
    assert StringLess(a, b) <==> a[0] < b[0] || (a[0] == b[0] && StringLess(a1, b1));
  }

  // ---------------------------------------------------------------------
  // Validation

  /** The title must have a non-whitespace character and at most 60
      characters, counting the whitespace around it. */
  function TitleError(title: string): (err: Option<string>)
    ensures err == Some(TitleRequired) <==> AllWhitespace(title)
    ensures err == Some(TitleTooLong) <==> !AllWhitespace(title) && |title| > MaxTitleLength
    ensures err.None? <==> !AllWhitespace(title) && |title| <= MaxTitleLength
  {
    if Trim(title) == "" then Some(TitleRequired)
    else if |title| > MaxTitleLength then Some(TitleTooLong)
    else None
  }

  /** The description may be empty and has at most 500 characters. */
  function DescriptionError(description: string): (err: Option<string>)
    ensures err.Some? <==> |description| > MaxDescLength
    ensures err.Some? ==> err.value == DescriptionTooLong
  {
    if |description| > MaxDescLength then Some(DescriptionTooLong) else None
  }

  /** The date must be non-empty; its format is not checked. */
  function DateError(date: string): (err: Option<string>)
    ensures err.Some? <==> date == ""
    ensures err.Some? ==> err.value == DateRequired
  {
    if date == "" then Some(DateRequired) else None
  }

  /** With both times given, the end must come strictly after the start
      (JavaScript's `end <= start` is `!(start < end)`). */
  function TimeError(start: string, end: string): (err: Option<string>)
    ensures err.Some? <==> start != "" && end != "" && !StringLess(start, end)
    ensures err.Some? ==> err.value == TimeOutOfOrder
  {
    if start != "" && end != "" && !StringLess(start, end) then Some(TimeOutOfOrder) else None
  }

  /** The rules a submittable form meets, stated field by field. */
  predicate FormIsValid(title: string, description: string, date: string, start: string, end: string) {
    !AllWhitespace(title) && |title| <= MaxTitleLength &&
    |description| <= MaxDescLength &&
    date != "" &&
    (start == "" || end == "" || StringLess(start, end))
  }

  /** `validateForm`'s errors: each field's message depends on that field
      alone, and there are none exactly when the form is valid. */
  function Validate(title: string, description: string, date: string, start: string, end: string): (errs: FormErrors)
    ensures errs.title == TitleError(title) && errs.description == DescriptionError(description)
    ensures errs.date == DateError(date) && errs.time == TimeError(start, end)
    ensures errs == NoErrors <==> FormIsValid(title, description, date, start, end)
  {
    FormErrors(TitleError(title), DescriptionError(description), DateError(date), TimeError(start, end))
  }

  /** The seed event "19:00 - 10:00" cannot be saved unchanged from the edit
      form: its end comes before its start. */
  lemma OvernightRangeRejected()
    ensures ParseTimeRange(Some("19:00 - 10:00")) == TimeRange("19:00", "10:00")
    ensures TimeError("19:00", "10:00") == Some(TimeOutOfOrder)
  {
    var t := "19:00 - 10:00";
    assert t[..5] == "19:00" && t[|t| - 5..] == "10:00" && t[5..|t| - 5] == " - ";
    SpacedHyphenIsSeparator();
    assert !StringLess("19:00", "10:00") by {
      assert !("19:00"[0] < "10:00"[0]) && "19:00"[0] == "10:00"[0];
      assert "19:00"[1] > "10:00"[1];
      assert !("19:00"[1..][0] < "10:00"[1..][0]) && "19:00"[1..][0] != "10:00"[1..][0];
    }
  }

  // ---------------------------------------------------------------------
  // Submission

  /** The event data a valid submit hands on: the title and description
      trimmed, a blank description dropped, the times combined. */
  function Payload(title: string, description: string, date: string, start: string, end: string): (d: EventData)
    ensures d.title == Trim(title) && d.date == date
    ensures d.description.None? <==> AllWhitespace(description)
    ensures d.description.Some? ==> d.description.value == Trim(description)
    ensures d.time == CombineTime(start, end)
  {
    var desc := Trim(description);
    EventData(Trim(title), date, if desc == "" then None else Some(desc), CombineTime(start, end))
  }

  /** What a valid form stores: a non-blank title of at most 60 characters
      with no whitespace at either end, a non-blank description of at most
      500 characters if any, and a date. */
  lemma {:induction false} ValidPayload(title: string, description: string, date: string, start: string, end: string)
    requires FormIsValid(title, description, date, start, end)
    ensures var d := Payload(title, description, date, start, end);
      1 <= |d.title| <= MaxTitleLength && !IsWhitespace(d.title[0]) &&
      d.date != "" &&
      (d.description.Some? ==> 1 <= |d.description.value| <= MaxDescLength)
  {
  }

  /** `onSubmit(eventData, isEdit)` */
  datatype Submission = Submission(data: EventData, isEdit: bool)

  /** `defaultDate || today` */
  function InitialDate(defaultDate: Option<string>, today: string): string {
    if defaultDate.Some? && defaultDate.value != "" then defaultDate.value else today
  }

  class FormState {
    /** The hook's props. */
    var defaultDate: Option<string>
    var eventToEdit: Option<CalendarEvent>

    var title: string
    var description: string
    var date: string
    var startTime: string
    var endTime: string
    var errors: FormErrors

    /** The initial state: empty fields and no errors; the date is the
        default date or, without one, today's (`today` stands for the UTC
        date the source reads from the clock). */
    constructor (defaultDate: Option<string>, eventToEdit: Option<CalendarEvent>, today: string)
      ensures this.defaultDate == defaultDate && this.eventToEdit == eventToEdit
      ensures title == "" && description == "" && startTime == "" && endTime == ""
      ensures date == InitialDate(defaultDate, today) && errors == NoErrors
    {
      this.defaultDate := defaultDate;
      this.eventToEdit := eventToEdit;
      title, description, startTime, endTime := "", "", "", "";
      date := InitialDate(defaultDate, today);
      errors := NoErrors;
    }

    /** The effect on `eventToEdit`: load the event into the fields and clear
        the errors; in create mode, do nothing. */
    method LoadEventToEdit()
      modifies this`title, this`description, this`date, this`startTime, this`endTime, this`errors
      ensures eventToEdit.None? ==>
        title == old(title) && description == old(description) && date == old(date) &&
        startTime == old(startTime) && endTime == old(endTime) && errors == old(errors)
      ensures eventToEdit.Some? ==>
        var e := eventToEdit.value;
        title == e.title && description == e.description.GetOr("") && date == e.date &&
        TimeRange(startTime, endTime) == ParseTimeRange(e.time) && errors == NoErrors
    {
      if eventToEdit.Some? {
        var e := eventToEdit.value;
        title := e.title;
        description := e.description.GetOr("");
        date := e.date;
        var range := ParseTimeRange(e.time);
        startTime := range.start;
        endTime := range.end;
        errors := NoErrors;
      }
    }

    /** The effect on `defaultDate`: in create mode a non-empty default date
        replaces the date. */
    method ApplyDefaultDate()
      modifies this`date
      ensures date == if defaultDate.Some? && defaultDate.value != "" && eventToEdit.None?
        then defaultDate.value else old(date)
    {
      if defaultDate.Some? && defaultDate.value != "" && eventToEdit.None? {
        date := defaultDate.value;
      }
    }

    predicate IsValid()
      reads this
    {
      FormIsValid(title, description, date, startTime, endTime)
    }

    /** `validateForm`: records the errors of the current fields and says
        whether there were none. */
    method ValidateForm() returns (isValid: bool)
      modifies this`errors
      ensures errors == Validate(title, description, date, startTime, endTime)
      ensures isValid <==> IsValid()
    {
      var newErrors := NoErrors;
      isValid := true;
      if Trim(title) == "" {
        newErrors := newErrors.(title := Some(TitleRequired));
        isValid := false;
      } else if |title| > MaxTitleLength {
        newErrors := newErrors.(title := Some(TitleTooLong));
        isValid := false;
      }
      if |description| > MaxDescLength {
        newErrors := newErrors.(description := Some(DescriptionTooLong));
        isValid := false;
      }
      if date == "" {
        newErrors := newErrors.(date := Some(DateRequired));
        isValid := false;
      }
      if startTime != "" && endTime != "" {
        if !StringLess(startTime, endTime) {
          newErrors := newErrors.(time := Some(TimeOutOfOrder));
          isValid := false;
        }
      }
      errors := newErrors;
    }

    /** `handleSubmit`: validates, and only when the form is valid produces
        the call to `onSubmit` with the payload and whether an event is
        being edited. */
    method HandleSubmit() returns (call: Option<Submission>)
      modifies this`errors
      ensures errors == Validate(title, description, date, startTime, endTime)
      ensures call.Some? <==> IsValid()
      ensures call.Some? ==>
        call.value == Submission(Payload(title, description, date, startTime, endTime), eventToEdit.Some?)
    {
      var ok := ValidateForm();
      if !ok {
        return None;
      }
      var timeRange: Option<string> := None;
      if startTime != "" && endTime != "" {
        timeRange := Some(startTime + " - " + endTime);
      } else if startTime != "" {
        timeRange := Some(startTime);
      }
      var desc := Trim(description);
      var eventData := EventData(Trim(title), date, if desc == "" then None else Some(desc), timeRange);
      call := Some(Submission(eventData, eventToEdit.Some?));
    }

    /** `resetForm`: back to the initial state. */
    method ResetForm(today: string)
      modifies this`title, this`description, this`date, this`startTime, this`endTime, this`errors
      ensures title == "" && description == "" && startTime == "" && endTime == ""
      ensures date == InitialDate(defaultDate, today) && errors == NoErrors
    {
      title, description, startTime, endTime := "", "", "", "";
      date := InitialDate(defaultDate, today);
      errors := NoErrors;
    }
  }

  /** Opening an event for editing and saving it without changes passes
      validation and stores the same data again, provided the time inputs
      hold what a time input produces. */
  lemma {:induction false} EditWithoutChangesIsStable(title: string, description: string, date: string, start: string, end: string)
    requires FormIsValid(title, description, date, start, end)
    requires start == "" || IsClock(start)
    requires end == "" || IsClock(end)
    ensures var d := Payload(title, description, date, start, end);
      var r := ParseTimeRange(d.time);
      FormIsValid(d.title, d.description.GetOr(""), d.date, r.start, r.end) &&
      Payload(d.title, d.description.GetOr(""), d.date, r.start, r.end) == d
  {
    var d := Payload(title, description, date, start, end);
    TimeRoundTrip(start, end);
    TrimIdempotent(title);
    TrimIdempotent(description);
    var r := ParseTimeRange(d.time);
    ValidPayload(title, description, date, start, end);
    if start == "" {
      assert r == TimeRange("", "");
    } else {
      assert r == TimeRange(start, end);
    }
  }
}
