/** The event record shared by the store, the views and the form. */
module Types {
  import opened Wrappers

  /** `CalendarEvent`: `description` and `time` are optional. The date is
      meant to be `YYYY-MM-DD`, but nothing enforces it. */
  datatype CalendarEvent = CalendarEvent(
    id: string,
    title: string,
    date: string,
    description: Option<string>,
    time: Option<string>)

  /** `Omit<CalendarEvent, 'id'>`: what the form produces. */
  datatype EventData = EventData(
    title: string,
    date: string,
    description: Option<string>,
    time: Option<string>)

  /** An event without its id. */
  function DataOf(e: CalendarEvent): EventData {
    EventData(e.title, e.date, e.description, e.time)
  }
}
