/**
 * A client of the handlers: what a caller can conclude from their contracts
 * alone about one todo's life against a calendar that accepts every request.
 */
module TodoScenarios {
  import opened Wrappers
  import opened TodoModel
  import opened CalendarEvent
  import opened GoogleCalendar
  import opened TodoController

  /** The event a todo with this title, no description and this reminder maps to. */
  function EventAt(title: string, at: Time): EventSpec {
    EventSpec(title, None, EventTime(at, TimeZone), EventTime(at + ReminderWindow, TimeZone))
  }

  /**
   * A linked user creates a todo with a reminder, moves the reminder, then
   * deletes the todo. The id the insert returned is the one the update patches
   * and the delete removes; exactly these three requests reach the calendar, no
   * event is left behind and the store is empty again.
   */
  method CreateMoveDelete(user: UserId, tokens: Tokens, title: string, at: Time, later: Time, now: Time)
    returns (created: Response, moved: Response, deleted: Response,
             ghost calls: seq<Call>, ghost remaining: map<EventId, EventSpec>, left: map<TodoId, Todo>)
    requires title != ""
    requires ValidTime(at) && ValidTime(at + ReminderWindow)
    requires ValidTime(later) && ValidTime(later + ReminderWindow)
    ensures created.status == 201 && created.body.Record?
    ensures created.body.todo.googleEventId.Some? && created.body.todo.alarmTime == Some(at)
    ensures moved.status == 200 && moved.body.Record? && moved.body.id == created.body.id
    ensures moved.body.todo.googleEventId == created.body.todo.googleEventId
    ensures moved.body.todo.alarmTime == Some(later)
    ensures deleted == Response(200, Message(DeletedText))
    ensures calls == [InsertCall(tokens, EventAt(title, at)),
                      PatchCall(tokens, created.body.todo.googleEventId.value, EventAt(title, later)),
                      DeleteCall(tokens, created.body.todo.googleEventId.value)]
    ensures remaining == map[] && left == map[]
  {
    var store := new TodoStore();
    var cal := new Calendar();
    var caller := Caller(user, Some(tokens));
    var body := CreateBody(Some(title), None, Some(at));
    var made := NewTodo(user, Some(title), None, Some(at), now);
    assert made.Success? && BuildEvent(made.value) == Some(EventAt(title, at));
    created := store.CreateTodo(caller, body, cal, true, now);
    moved := store.UpdateTodo(caller, created.body.id, UpdateBody(None, None, Some(later), None), cal, true, now);
    deleted := store.DeleteTodo(caller, created.body.id, cal, true);
    calls := cal.log;
    remaining := cal.events;
    left := store.todos;
  }
}
