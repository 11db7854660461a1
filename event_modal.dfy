/** The event modal (src/components/EventModal/EventModal.tsx): the heading,
    what a submit does to the store, the field handlers that clear their
    own error, and the reset when the modal closes. `updateEvent` and
    `onClose` are callbacks whose effect is not visible here, so the model
    records the calls made, in order; `addEvent` is the store's. The
    creation id's clock reading and random suffix are parameters. */
module EventModal {
  import opened Wrappers
  import opened Text
  import opened Types
  import opened EventForm
  import opened CalendarContext

  /** The modal title. */
  function Heading(eventToEdit: Option<CalendarEvent>): (h: string)
    ensures h == "Edit Event" <==> eventToEdit.Some?
    ensures h == "Create Event" <==> eventToEdit.None?
  {
    if eventToEdit.Some? then "Edit Event" else "Create Event"
  }

  /** `{ ...eventToEdit, ...eventData }`: the form data always carries all
      four keys, so every field but the id is replaced, an absent
      description or time included. */
  function MergeEdit(e: CalendarEvent, data: EventData): (r: CalendarEvent)
    ensures r.id == e.id && DataOf(r) == data
    ensures data.description.None? ==> r.description.None?
    ensures data.time.None? ==> r.time.None?
  {
    e.(title := data.title, date := data.date, description := data.description, time := data.time)
  }

  /** The id of a created event, `event-<now>-<suffix>`. */
  function NewEventId(now: nat, suffix: string): (id: string)
    ensures |id| > 6 && id[..6] == "event-"
  {
    "event-" + NatToString(now) + "-" + suffix
  }

  /** A created event: the form data under a new id. */
  function NewEvent(now: nat, suffix: string, data: EventData): (r: CalendarEvent)
    ensures r.id == NewEventId(now, suffix) && DataOf(r) == data
  {
    CalendarEvent(NewEventId(now, suffix), data.title, data.date, data.description, data.time)
  }

  /** A created event's id is never a plain number, so it differs from the
      provider's seed ids and the generator's ids. */
  lemma NewEventIdIsNotNumeric(now: nat, suffix: string, n: nat)
    ensures NewEventId(now, suffix) != NatToString(n)
  {
    var id := NewEventId(now, suffix);
    assert id[0] == id[..6][0] == 'e';
    assert IsDigit(NatToString(n)[0]);
  }

  /** A call the modal makes, in the order it makes them. */
  datatype Call = UpdateEvent(event: CalendarEvent) | AddEvent(event: CalendarEvent) | Close

  /** `handleFormSubmit`'s calls: exactly one store call, the update in edit
      mode and otherwise the addition of a new event, then `onClose` once. */
  function SubmitCalls(data: EventData, isEdit: bool, eventToEdit: Option<CalendarEvent>, now: nat, suffix: string): (calls: seq<Call>)
    ensures |calls| == 2 && calls[1] == Close && !calls[0].Close?
    ensures calls[0].UpdateEvent? <==> isEdit && eventToEdit.Some?
    ensures calls[0].UpdateEvent? ==> calls[0].event == MergeEdit(eventToEdit.value, data)
    ensures calls[0].AddEvent? ==> calls[0].event == NewEvent(now, suffix, data)
  {
    if isEdit && eventToEdit.Some? then [UpdateEvent(MergeEdit(eventToEdit.value, data)), Close]
    else [AddEvent(NewEvent(now, suffix, data)), Close]
  }

  /** `handleFormSubmit`, run against the store: in create mode the new event
      is appended; an update goes to the callback and leaves the store's
      list as it was. */
  method HandleFormSubmit(store: CalendarStore, data: EventData, isEdit: bool,
                          eventToEdit: Option<CalendarEvent>, now: nat, suffix: string)
    returns (calls: seq<Call>)
    modifies store`events
    ensures calls == SubmitCalls(data, isEdit, eventToEdit, now, suffix)
    ensures store.events ==
      if calls[0].AddEvent? then old(store.events) + [calls[0].event] else old(store.events)
    ensures store.currentDate == old(store.currentDate) && store.selectedDate == old(store.selectedDate)
  {
    if isEdit && eventToEdit.Some? {
      calls := [UpdateEvent(MergeEdit(eventToEdit.value, data))];
    } else {
      var newEvent := NewEvent(now, suffix, data);
      store.AddEvent(newEvent);
      calls := [AddEvent(newEvent)];
    }
    calls := calls + [Close];
  }

  /** The Save button: the form's submit, whose `onSubmit` is
      `handleFormSubmit`. An invalid form makes no call at all; a valid one
      makes the two calls of `SubmitCalls` for the form's payload. */
  method Save(form: FormState, store: CalendarStore, now: nat, suffix: string) returns (calls: seq<Call>)
    modifies form`errors, store`events
    ensures form.errors == Validate(form.title, form.description, form.date, form.startTime, form.endTime)
    ensures calls == [] <==> !form.IsValid()
    ensures form.IsValid() ==>
      calls == SubmitCalls(Payload(form.title, form.description, form.date, form.startTime, form.endTime),
                           form.eventToEdit.Some?, form.eventToEdit, now, suffix)
    ensures store.events ==
      if calls != [] && calls[0].AddEvent? then old(store.events) + [calls[0].event] else old(store.events)
  {
    var submission := form.HandleSubmit();
    if submission.None? {
      return [];
    }
    calls := HandleFormSubmit(store, submission.value.data, submission.value.isEdit, form.eventToEdit, now, suffix);
  }

  // ---------------------------------------------------------------------
  // Field handlers

  /** `if (errors.x)`: a message is present and non-empty. */
  predicate Shown(message: Option<string>) {
    message.Some? && message.value != ""
  }

  method OnTitleChange(form: FormState, value: string)
    modifies form`title, form`errors
    ensures form.title == value
    ensures form.errors == if Shown(old(form.errors.title)) then old(form.errors).(title := None) else old(form.errors)
  {
    form.title := value;
    if Shown(form.errors.title) {
      form.errors := form.errors.(title := None);
    }
  }

  method OnDescriptionChange(form: FormState, value: string)
    modifies form`description, form`errors
    ensures form.description == value
    ensures form.errors ==
      if Shown(old(form.errors.description)) then old(form.errors).(description := None) else old(form.errors)
  {
    form.description := value;
    if Shown(form.errors.description) {
      form.errors := form.errors.(description := None);
    }
  }

  method OnDateChange(form: FormState, value: string)
    modifies form`date, form`errors
    ensures form.date == value
    ensures form.errors == if Shown(old(form.errors.date)) then old(form.errors).(date := None) else old(form.errors)
  {
    form.date := value;
    if Shown(form.errors.date) {
      form.errors := form.errors.(date := None);
    }
  }

  /** The start and end inputs share the one time error. */
  method OnStartTimeChange(form: FormState, value: string)
    modifies form`startTime, form`errors
    ensures form.startTime == value
    ensures form.errors == if Shown(old(form.errors.time)) then old(form.errors).(time := None) else old(form.errors)
  {
    form.startTime := value;
    if Shown(form.errors.time) {
      form.errors := form.errors.(time := None);
    }
  }

  method OnEndTimeChange(form: FormState, value: string)
    modifies form`endTime, form`errors
    ensures form.endTime == value
    ensures form.errors == if Shown(old(form.errors.time)) then old(form.errors).(time := None) else old(form.errors)
  {
    form.endTime := value;
    if Shown(form.errors.time) {
      form.errors := form.errors.(time := None);
    }
  }

  /** The effect on `isOpen`: a closed modal resets its form; an open one
      keeps it. */
  method OnOpenChange(form: FormState, isOpen: bool, today: string)
    modifies form`title, form`description, form`date, form`startTime, form`endTime, form`errors
    ensures !isOpen ==>
      form.title == "" && form.description == "" && form.startTime == "" && form.endTime == "" &&
      form.date == InitialDate(form.defaultDate, today) && form.errors == NoErrors
    ensures isOpen ==>
      form.title == old(form.title) && form.description == old(form.description) &&
      form.date == old(form.date) && form.startTime == old(form.startTime) &&
      form.endTime == old(form.endTime) && form.errors == old(form.errors)
  {
    if !isOpen {
      form.ResetForm(today);
    }
  }
}
