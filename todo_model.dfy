/**
 * The Todo document of backend/src/models/todoModel.js: its fields, the one
 * required field, the one default, the Date cast of the reminder and the
 * createdAt/updatedAt timestamps that the schema's `timestamps` option keeps.
 */
module TodoModel {
  import opened Wrappers

  /** An instant as a JavaScript time value: integer milliseconds since the Unix epoch. */
  type Time = int

  /** Opaque identities: a todo's `_id`, a user's id, a calendar event's id. */
  type TodoId = nat
  type UserId = nat
  type EventId = nat

  /** The largest distance from the epoch, in milliseconds, that a JavaScript Date can hold. */
  const MaxTime: int := 8_640_000_000_000_000

  /** An instant a Date can represent; any other value is an Invalid Date. */
  predicate ValidTime(t: Time) {
    -MaxTime <= t <= MaxTime
  }

  /**
   * A string value that is present and non-empty. This is both what Mongoose's
   * `required` validator accepts for a String path and what JavaScript treats
   * as truthy for a string.
   */
  predicate NonEmpty(s: Option<string>) {
    s.Some? && s.value != ""
  }

  /** A reminder value that casts to a Date: absent, or an instant a Date can hold. */
  predicate CastsToDate(alarm: Option<Time>) {
    alarm.Some? ==> ValidTime(alarm.value)
  }

  /** One stored todo; optional schema paths are `Option`s. */
  datatype Todo = Todo(
    userId: UserId,
    title: string,
    description: Option<string>,
    alarmTime: Option<Time>,
    googleEventId: Option<EventId>,
    completed: bool,
    createdAt: Time,
    updatedAt: Time)

  /** What the schema admits: a non-empty title and, when set, a reminder a Date can hold. */
  predicate ValidTodo(t: Todo) {
    t.title != "" && CastsToDate(t.alarmTime)
  }

  /** A rejected save: which of the schema's checks failed (both may). */
  datatype ValidationError = ValidationError(titleMissing: bool, reminderInvalid: bool)

  /** The schema's fields other than the two timestamps agree. */
  predicate SameContent(a: Todo, b: Todo) {
    && a.userId == b.userId
    && a.title == b.title
    && a.description == b.description
    && a.alarmTime == b.alarmTime
    && a.googleEventId == b.googleEventId
    && a.completed == b.completed
  }

  /**
   * `new Todo({ title, description, alarmTime, userId })` followed by its first
   * save at instant `now`: the save is rejected when the title is missing or
   * empty or the reminder does not cast to a Date; otherwise `completed`
   * takes its default, no event id is set and both timestamps are `now`.
   */
  function NewTodo(owner: UserId, title: Option<string>, description: Option<string>,
                   alarmTime: Option<Time>, now: Time): (r: Result<Todo, ValidationError>)
    ensures r.Success? <==> NonEmpty(title) && CastsToDate(alarmTime)
    ensures r.Failure? ==> && r.error.titleMissing == !NonEmpty(title)
                           && r.error.reminderInvalid == !CastsToDate(alarmTime)
    ensures r.Success? ==> ValidTodo(r.value)
    ensures r.Success? ==> && r.value.userId == owner
                           && Some(r.value.title) == title
                           && r.value.description == description
                           && r.value.alarmTime == alarmTime
                           && r.value.googleEventId.None?
                           && !r.value.completed
                           && r.value.createdAt == now && r.value.updatedAt == now
  {
    if NonEmpty(title) && CastsToDate(alarmTime) then
      Success(Todo(owner, title.value, description, alarmTime, None, false, now, now))
    else
      Failure(ValidationError(!NonEmpty(title), !CastsToDate(alarmTime)))
  }

  /**
   * The document written by saving `after` over `before` at instant `now`:
   * the timestamps option sets `updatedAt` only when some field was actually
   * modified, and never touches `createdAt`.
   */
  function Stamp(before: Todo, after: Todo, now: Time): (r: Todo)
    ensures SameContent(r, after) && r.createdAt == after.createdAt
    ensures !SameContent(before, after) ==> r.updatedAt == now
    ensures SameContent(before, after) ==> r.updatedAt == before.updatedAt
  {
    if SameContent(before, after) then after.(updatedAt := before.updatedAt)
    else after.(updatedAt := now)
  }
}
