/**
 * The calendar event a todo maps to. createCalendarEvent and
 * updateCalendarEvent in backend/src/controllers/todoController.js build the
 * same event object from a todo; here that construction is one function used by
 * both the insert and the patch path.
 */
module CalendarEvent {
  import opened Wrappers
  import opened TodoModel

  /** The time zone both ends of every event carry. */
  const TimeZone: string := "Asia/Kolkata"

  /** An event lasts thirty minutes from the reminder instant, in milliseconds. */
  const ReminderWindow: int := 30 * 60 * 1000

  /** One end of an event: an instant (sent as its ISO-8601 text) and a time zone. */
  datatype EventTime = EventTime(dateTime: Time, timeZone: string)

  /** The fields of a calendar event the application writes. */
  datatype EventSpec = EventSpec(
    summary: string,
    description: Option<string>,
    start: EventTime,
    end: EventTime)

  /**
   * The event for `todo`. `None` stands for the RangeError that
   * `toISOString` throws when the reminder is absent or either end is not an
   * instant a Date can hold; the helpers then fail before calling the calendar.
   */
  function BuildEvent(todo: Todo): (r: Option<EventSpec>)
    ensures r.Some? <==> && todo.alarmTime.Some?
                         && ValidTime(todo.alarmTime.value)
                         && ValidTime(todo.alarmTime.value + ReminderWindow)
    ensures r.Some? ==> && r.value.summary == todo.title
                        && r.value.description == todo.description
                        && Some(r.value.start.dateTime) == todo.alarmTime
                        && r.value.end.dateTime == r.value.start.dateTime + 1_800_000
                        && r.value.start.timeZone == "Asia/Kolkata"
                        && r.value.end.timeZone == "Asia/Kolkata"
  {
    match todo.alarmTime
    case None => None
    case Some(at) =>
      if ValidTime(at) && ValidTime(at + ReminderWindow) then
        Some(EventSpec(todo.title, todo.description,
                       EventTime(at, TimeZone), EventTime(at + ReminderWindow, TimeZone)))
      else
        None
  }

  /**
   * The event depends on the title, description and reminder only: completion,
   * the stored event id and the timestamps never change it.
   */
  lemma BuildEventReadsContent(a: Todo, b: Todo)
    requires a.title == b.title && a.description == b.description && a.alarmTime == b.alarmTime
    ensures BuildEvent(a) == BuildEvent(b)
  {
  }

  /** A stored todo whose reminder is not in the last half hour a Date can hold always yields its event. */
  lemma StoredReminderHasEvent(todo: Todo)
    requires ValidTodo(todo) && todo.alarmTime.Some?
    requires todo.alarmTime.value + ReminderWindow <= MaxTime
    ensures BuildEvent(todo).Some?
  {
  }
}
