/**
 * The request handlers of backend/src/controllers/todoController.js over a
 * store of todos, and the three helpers through which they reach the calendar.
 * A calendar helper failing never fails a handler: the local store is the
 * source of truth.
 */
module TodoController {
  import opened Wrappers
  import opened TodoModel
  import opened CalendarEvent
  import opened GoogleCalendar

  /** The authenticated user of a request: its id and, once Google is linked, its tokens. */
  datatype Caller = Caller(id: UserId, googleTokens: Option<Tokens>)

  /**
   * Request bodies, after casting. A string field is `None` when omitted; `""`
   * is the other falsy string. A reminder is `None` for every falsy value, and
   * otherwise the instant its text denotes (possibly one a Date cannot hold).
   * `completed` is `None` exactly when it is `undefined`.
   */
  datatype CreateBody = CreateBody(title: Option<string>, description: Option<string>,
                                   alarmTime: Option<Time>)
  datatype UpdateBody = UpdateBody(title: Option<string>, description: Option<string>,
                                   alarmTime: Option<Time>, completed: Option<bool>)

  /** The JSON sent back. */
  datatype Body =
    | Record(id: TodoId, todo: Todo)
    | Records(todos: map<TodoId, Todo>)
    | Message(text: string)
    | Rejected(error: ValidationError)

  datatype Response = Response(status: int, body: Body)

  const NotFoundText: string := "Todo not found"
  const DeletedText: string := "Todo deleted"

  /** `findOne({ _id: id, userId: caller.id })` finds a record. */
  predicate Owns(todos: map<TodoId, Todo>, id: TodoId, caller: Caller) {
    id in todos && todos[id].userId == caller.id
  }

  /** `find({ userId: user })`: exactly the records of that user. */
  function Owned(todos: map<TodoId, Todo>, user: UserId): (r: map<TodoId, Todo>)
    ensures forall id :: id in r <==> id in todos && todos[id].userId == user
    ensures forall id :: id in r ==> r[id] == todos[id]
  {
    map id | id in todos && todos[id].userId == user :: todos[id]
  }

  /** createTodo asks for an event when the request has a reminder and the user has tokens. */
  predicate WantsInsert(body: CreateBody, caller: Caller) {
    body.alarmTime.Some? && caller.googleTokens.Some?
  }

  /** updateTodo patches when the saved record has an event id and a reminder and the user has tokens. */
  predicate WantsPatch(t: Todo, caller: Caller) {
    t.googleEventId.Some? && t.alarmTime.Some? && caller.googleTokens.Some?
  }

  /** deleteTodo tries the remote delete when the record has an event id and the user has tokens. */
  predicate WantsRemoteDelete(t: Todo, caller: Caller) {
    t.googleEventId.Some? && caller.googleTokens.Some?
  }

  /**
   * updateTodo's merge of a request into the stored record `t`, and the save
   * that follows at instant `now`. Title, description and reminder fall back to
   * the stored value when the request value is falsy; `completed` only when it
   * is omitted. The save is rejected if the title ends up empty or the reminder
   * does not cast to a Date.
   */
  function Merge(t: Todo, body: UpdateBody, now: Time): (r: Result<Todo, ValidationError>)
    ensures r.Success? <==> (NonEmpty(body.title) || t.title != "") && CastsToDate(body.alarmTime)
    ensures ValidTodo(t) ==> (r.Failure? <==> !CastsToDate(body.alarmTime))
    ensures r.Failure? ==> r.error.reminderInvalid == !CastsToDate(body.alarmTime)
    ensures r.Success? ==> var m := r.value;
      && (NonEmpty(body.title) ==> Some(m.title) == body.title)
      && (!NonEmpty(body.title) ==> m.title == t.title)
      && (NonEmpty(body.description) ==> m.description == body.description)
      && (!NonEmpty(body.description) ==> m.description == t.description)
      && (body.alarmTime.Some? ==> m.alarmTime == body.alarmTime)
      && (body.alarmTime.None? ==> m.alarmTime == t.alarmTime)
      && (body.completed.Some? ==> m.completed == body.completed.value)
      && (body.completed.None? ==> m.completed == t.completed)
    // what no request can change
    ensures r.Success? ==> && r.value.userId == t.userId
                           && r.value.googleEventId == t.googleEventId
                           && r.value.createdAt == t.createdAt
                           && (t.alarmTime.Some? ==> r.value.alarmTime.Some?)
    ensures r.Success? && ValidTodo(t) ==> ValidTodo(r.value)
    // the timestamps option: updatedAt moves to `now` exactly when some field changed
    ensures r.Success? && SameContent(r.value, t) ==> r.value.updatedAt == t.updatedAt
    ensures r.Success? && !SameContent(r.value, t) ==> r.value.updatedAt == now
  {
    var merged := t.(
      title := if NonEmpty(body.title) then body.title.value else t.title,
      description := if NonEmpty(body.description) then body.description else t.description,
      alarmTime := if body.alarmTime.Some? then body.alarmTime else t.alarmTime,
      completed := if body.completed.Some? then body.completed.value else t.completed);
    if merged.title != "" && CastsToDate(body.alarmTime) then
      Success(Stamp(t, merged, now))
    else
      Failure(ValidationError(merged.title == "", !CastsToDate(body.alarmTime)))
  }

  /** Applying the same update request again, at any instant, leaves the record as the first application did. */
  lemma MergeIdempotent(t: Todo, body: UpdateBody, now: Time, later: Time)
    requires Merge(t, body, now).Success?
    ensures Merge(Merge(t, body, now).value, body, later) == Merge(t, body, now)
  {
  }

  /** A request that sets nothing leaves the record, timestamps included, as it was. */
  lemma MergeEmptyBody(t: Todo, now: Time)
    requires ValidTodo(t)
    ensures Merge(t, UpdateBody(None, None, None, None), now) == Success(t)
  {
  }

  /** One update request as it reaches the store: the body and the instant of the save. */
  datatype Edit = Edit(body: UpdateBody, now: Time)

  /** The record after a run of update requests on it; a rejected one leaves it as it was. */
  function ApplyEdits(t: Todo, edits: seq<Edit>): Todo
    decreases |edits|
  {
    if edits == [] then t
    else
      var m := Merge(t, edits[0].body, edits[0].now);
      ApplyEdits(if m.Success? then m.value else t, edits[1..])
  }

  /**
   * However many update requests a record receives, its owner, its event id and
   * its creation time never change, a reminder once set is never cleared, and
   * the record stays valid.
   */
  lemma {:induction false} EditsPreserveIdentity(t: Todo, edits: seq<Edit>)
    requires ValidTodo(t)
    ensures var r := ApplyEdits(t, edits);
            && r.userId == t.userId
            && r.googleEventId == t.googleEventId
            && r.createdAt == t.createdAt
            && (t.alarmTime.Some? ==> r.alarmTime.Some?)
            && ValidTodo(r)
    decreases |edits|
  {
    if edits != [] {
      var m := Merge(t, edits[0].body, edits[0].now);
      EditsPreserveIdentity(if m.Success? then m.value else t, edits[1..]);
    }
  }

  /** Writing a record of user `a` leaves what `find` returns for any other user unchanged. */
  lemma OwnedAfterWrite(todos: map<TodoId, Todo>, id: TodoId, t: Todo, other: UserId)
    requires id in todos ==> todos[id].userId == t.userId
    requires t.userId != other
    ensures Owned(todos[id := t], other) == Owned(todos, other)
  {
    assert Owned(todos[id := t], other).Keys == Owned(todos, other).Keys;
  }

  /** Removing a record that is not `other`'s leaves what `find` returns for `other` unchanged. */
  lemma OwnedAfterRemove(todos: map<TodoId, Todo>, id: TodoId, other: UserId)
    requires id in todos ==> todos[id].userId != other
    ensures Owned(todos - {id}, other) == Owned(todos, other)
  {
    assert Owned(todos - {id}, other).Keys == Owned(todos, other).Keys;
  }

  /**
   * createCalendarEvent: build the event and send `events.insert`. `None` is
   * the thrown 'Failed to create calendar event', either because the event
   * could not be built (no request is sent) or because the calendar failed.
   */
  method CreateCalendarEvent(cal: Calendar, todo: Todo, tokens: Tokens, ok: bool)
    returns (eventId: Option<EventId>)
    requires cal.Valid()
    modifies cal
    ensures cal.Valid()
    ensures BuildEvent(todo).None? ==> eventId.None? && unchanged(cal)
    ensures BuildEvent(todo).Some? ==>
      && cal.log == old(cal.log) + [InsertCall(tokens, BuildEvent(todo).value)]
      && (eventId.Some? <==> ok)
      && (ok ==> && eventId.value == old(cal.nextId) && eventId.value !in old(cal.events)
                 && cal.events == old(cal.events)[eventId.value := BuildEvent(todo).value]
                 && cal.nextId == old(cal.nextId) + 1)
      && (!ok ==> cal.events == old(cal.events) && cal.nextId == old(cal.nextId))
  {
    var event := BuildEvent(todo);
    if event.None? {
      return None;
    }
    eventId := cal.Insert(tokens, event.value, ok);
  }

  /**
   * updateCalendarEvent: build the event and send `events.patch` for the
   * record's stored event id. `false` is the thrown 'Failed to update calendar
   * event'; no request is sent when the event cannot be built or the record has
   * no event id (a missing required parameter).
   */
  method UpdateCalendarEvent(cal: Calendar, todo: Todo, tokens: Tokens, ok: bool)
    returns (done: bool)
    requires cal.Valid()
    modifies cal
    ensures cal.Valid() && cal.nextId == old(cal.nextId)
    ensures BuildEvent(todo).None? || todo.googleEventId.None? ==> !done && unchanged(cal)
    ensures BuildEvent(todo).Some? && todo.googleEventId.Some? ==>
      var id, event := todo.googleEventId.value, BuildEvent(todo).value;
      && cal.log == old(cal.log) + [PatchCall(tokens, id, event)]
      && (done <==> ok && id in old(cal.events))
      && cal.events == if done then old(cal.events)[id := PatchInto(old(cal.events)[id], event)]
                       else old(cal.events)
  {
    var event := BuildEvent(todo);
    if event.None? || todo.googleEventId.None? {
      return false;
    }
    done := cal.Patch(tokens, todo.googleEventId.value, event.value, ok);
  }

  /** deleteCalendarEvent: send `events.delete` and swallow any failure, so it reports nothing. */
  method DeleteCalendarEvent(cal: Calendar, eventId: EventId, tokens: Tokens, ok: bool)
    requires cal.Valid()
    modifies cal
    ensures cal.Valid() && cal.nextId == old(cal.nextId)
    ensures cal.log == old(cal.log) + [DeleteCall(tokens, eventId)]
    ensures cal.events == if ok && eventId in old(cal.events) then old(cal.events) - {eventId}
                          else old(cal.events)
  {
    var _ := cal.Delete(tokens, eventId, ok);
  }

  /** The todo collection: documents by `_id`, and the source of fresh ids. */
  class TodoStore {
    var todos: map<TodoId, Todo>
    var nextId: TodoId

    /** Every stored record passed the schema, and `nextId` is unused. */
    ghost predicate Valid()
      reads this
    {
      forall id :: id in todos ==> id < nextId && ValidTodo(todos[id])
    }

    constructor ()
      ensures Valid() && todos == map[]
    {
      todos := map[];
      nextId := 0;
    }

    /** getTodos: status 200 and exactly the caller's records; nothing changes. */
    method GetTodos(caller: Caller) returns (resp: Response)
      ensures resp.status == 200 && resp.body.Records?
      ensures forall id :: id in resp.body.todos <==> Owns(todos, id, caller)
      ensures forall id :: id in resp.body.todos ==> id in todos && resp.body.todos[id] == todos[id]
    {
      resp := Response(200, Records(Owned(todos, caller.id)));
    }

    /**
     * createTodo. The record is saved before the calendar is asked; an event is
     * requested only for a request with a reminder from a user with tokens, and
     * its id is saved on the record when the insert succeeds. Whatever the
     * calendar does, a record that passed the schema is answered with 201.
     */
    method CreateTodo(caller: Caller, body: CreateBody, cal: Calendar, calendarOk: bool, now: Time)
      returns (resp: Response)
      requires Valid() && cal.Valid()
      modifies this, cal
      ensures Valid() && cal.Valid()
      // calendar failure never fails the request
      ensures resp.status == 201 <==> NewTodo(caller.id, body.title, body.description, body.alarmTime, now).Success?
      ensures var made := NewTodo(caller.id, body.title, body.description, body.alarmTime, now);
        made.Failure? ==>
          && resp == Response(500, Rejected(made.error))
          && todos == old(todos) && nextId == old(nextId) && unchanged(cal)
      ensures var made := NewTodo(caller.id, body.title, body.description, body.alarmTime, now);
        made.Success? ==>
          var id, event := old(nextId), BuildEvent(made.value);
          var asked := WantsInsert(body, caller) && event.Some?;
          var linked := asked && calendarOk;
          var saved := if linked then Stamp(made.value, made.value.(googleEventId := Some(old(cal.nextId))), now)
                       else made.value;
          && id !in old(todos) && nextId == id + 1
          && todos == old(todos)[id := saved]
          && resp == Response(201, Record(id, saved))
          && cal.log == old(cal.log) + (if asked then [InsertCall(caller.googleTokens.value, event.value)] else [])
          && cal.events == (if linked then old(cal.events)[old(cal.nextId) := event.value] else old(cal.events))
          && cal.nextId == (if linked then old(cal.nextId) + 1 else old(cal.nextId))
      // the stored event id is the one the calendar returned, else absent
      ensures resp.status == 201 ==>
        var saved := resp.body.todo;
        && (saved.googleEventId.Some? ==>
              saved.googleEventId.value in cal.events && Some(cal.events[saved.googleEventId.value]) == BuildEvent(saved))
        && saved == NewTodo(caller.id, body.title, body.description, body.alarmTime, now).value
                      .(googleEventId := saved.googleEventId, updatedAt := now)
      ensures forall u :: u != caller.id ==> Owned(todos, u) == Owned(old(todos), u)
    {
      var made := NewTodo(caller.id, body.title, body.description, body.alarmTime, now);
      if made.Failure? {
        return Response(500, Rejected(made.error));
      }
      var saved := made.value;
      var id := nextId;
      todos := todos[id := saved];
      nextId := nextId + 1;
      if WantsInsert(body, caller) {
        var eventId := CreateCalendarEvent(cal, saved, caller.googleTokens.value, calendarOk);
        if eventId.Some? {
          var linked := saved.(googleEventId := eventId);
          BuildEventReadsContent(saved, linked);
          saved := Stamp(saved, linked, now);
          todos := todos[id := saved];
        }
      }
      resp := Response(201, Record(id, saved));
      forall u | u != caller.id
        ensures Owned(todos, u) == Owned(old(todos), u)
      {
        OwnedAfterWrite(old(todos), id, saved, u);
      }
    }

    /**
     * updateTodo. A record the caller does not own is a 404 with no other
     * effect. Otherwise the merged record is saved and then, only when it has an
     * event id and a reminder and the caller has tokens, the existing event is
     * patched. The answer never depends on the calendar; no event is ever
     * inserted and the stored event id never changes.
     */
    method UpdateTodo(caller: Caller, id: TodoId, body: UpdateBody, cal: Calendar, calendarOk: bool, now: Time)
      returns (resp: Response)
      requires Valid() && cal.Valid()
      modifies this, cal
      ensures Valid() && cal.Valid()
      ensures nextId == old(nextId) && cal.nextId == old(cal.nextId)
      ensures !Owns(old(todos), id, caller) ==>
        resp == Response(404, Message(NotFoundText)) && todos == old(todos) && unchanged(cal)
      ensures Owns(old(todos), id, caller) && Merge(old(todos)[id], body, now).Failure? ==>
        && resp == Response(500, Rejected(Merge(old(todos)[id], body, now).error))
        && todos == old(todos) && unchanged(cal)
      ensures Owns(old(todos), id, caller) && Merge(old(todos)[id], body, now).Success? ==>
        var saved := Merge(old(todos)[id], body, now).value;
        var event := BuildEvent(saved);
        var asked := WantsPatch(saved, caller) && event.Some?;
        && todos == old(todos)[id := saved]
        && resp == Response(200, Record(id, saved))
        && (!asked ==> cal.log == old(cal.log) && cal.events == old(cal.events))
        && (asked ==>
              var target := saved.googleEventId.value;
              && cal.log == old(cal.log) + [PatchCall(caller.googleTokens.value, target, event.value)]
              && cal.events == (if calendarOk && target in old(cal.events)
                                then old(cal.events)[target := PatchInto(old(cal.events)[target], event.value)]
                                else old(cal.events)))
      // the event reference is never created, replaced or dropped by an update
      ensures forall k :: k in todos <==> k in old(todos)
      ensures id in old(todos) ==> todos[id].googleEventId == old(todos)[id].googleEventId
      ensures forall u :: u != caller.id ==> Owned(todos, u) == Owned(old(todos), u)
    {
      if !Owns(todos, id, caller) {
        return Response(404, Message(NotFoundText));
      }
      var merged := Merge(todos[id], body, now);
      if merged.Failure? {
        return Response(500, Rejected(merged.error));
      }
      var saved := merged.value;
      forall u | u != caller.id
        ensures Owned(todos[id := saved], u) == Owned(todos, u)
      {
        OwnedAfterWrite(todos, id, saved, u);
      }
      todos := todos[id := saved];
      if WantsPatch(saved, caller) {
        var _ := UpdateCalendarEvent(cal, saved, caller.googleTokens.value, calendarOk);
      }
      resp := Response(200, Record(id, saved));
    }

    /**
     * deleteTodo. A record the caller does not own is a 404 with no other
     * effect. Otherwise the remote delete is tried only when the record has an
     * event id and the caller has tokens, any remote failure is swallowed, and
     * the record is removed whatever happened remotely.
     */
    method DeleteTodo(caller: Caller, id: TodoId, cal: Calendar, calendarOk: bool)
      returns (resp: Response)
      requires Valid() && cal.Valid()
      modifies this, cal
      ensures Valid() && cal.Valid()
      ensures nextId == old(nextId) && cal.nextId == old(cal.nextId)
      ensures !Owns(old(todos), id, caller) ==>
        resp == Response(404, Message(NotFoundText)) && todos == old(todos) && unchanged(cal)
      ensures Owns(old(todos), id, caller) ==>
        var gone := old(todos)[id];
        var asked := WantsRemoteDelete(gone, caller);
        && todos == old(todos) - {id}
        && resp == Response(200, Message(DeletedText))
        && (!asked ==> cal.log == old(cal.log) && cal.events == old(cal.events))
        && (asked ==>
              var target := gone.googleEventId.value;
              && cal.log == old(cal.log) + [DeleteCall(caller.googleTokens.value, target)]
              && cal.events == (if calendarOk && target in old(cal.events)
                                then old(cal.events) - {target} else old(cal.events)))
      ensures forall u :: u != caller.id ==> Owned(todos, u) == Owned(old(todos), u)
    {
      if !Owns(todos, id, caller) {
        return Response(404, Message(NotFoundText));
      }
      var todo := todos[id];
      if WantsRemoteDelete(todo, caller) {
        DeleteCalendarEvent(cal, todo.googleEventId.value, caller.googleTokens.value, calendarOk);
      }
      forall u | u != caller.id
        ensures Owned(todos - {id}, u) == Owned(todos, u)
      {
        OwnedAfterRemove(todos, id, u);
      }
      todos := todos - {id};
      resp := Response(200, Message(DeletedText));
    }
  }
}
