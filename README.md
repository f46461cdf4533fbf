# Todo ↔ Google Calendar propagation, modelled in Dafny

This project models the back end of a todo application that mirrors todos
with a reminder onto the user's Google Calendar. It covers the request
handlers of `backend/src/controllers/todoController.js` (`getTodos`,
`createTodo`, `updateTodo`, `deleteTodo`), their three calendar helpers
(`createCalendarEvent`, `updateCalendarEvent`, `deleteCalendarEvent`), and the
Todo document of `backend/src/models/todoModel.js`.

The rule the handlers follow is that the local todo store is the source of
truth. Each calendar request is best-effort. A failed insert, patch or delete
never changes the HTTP answer and never rolls back the local write.

## Layout

- `wrappers.dfy`, module `Wrappers`: `Option` and `Result`.
- `todo_model.dfy`, module `TodoModel`: the schema.
  - The `Todo` datatype.
  - `ValidTodo`: a non-empty title and a reminder a JavaScript Date can hold.
  - `NewTodo`: construct the document and save it for the first time. It applies the `required` title, the `completed: false` default and the timestamps.
  - `Stamp`: the `timestamps` option on later saves.
- `calendar_event.dfy`, module `CalendarEvent`: `BuildEvent`, the single pure mapping from a todo to the event object. Both helpers use it.
- `google_calendar.dfy`, module `GoogleCalendar`: the remote calendar, kept abstract.
  - It is a class holding a map from event id to event, a counter that hands out fresh ids, and a ghost log of every request received.
  - `Insert`, `Patch` and `Delete` succeed or fail according to an `ok` argument, which the environment chooses.
  - `Patch` and `Delete` also fail when the id is unknown, as Google's 404 does.
- `todo_controller.dfy`, module `TodoController`:
  - the request and response types;
  - the merge rule of `updateTodo` (`Merge`);
  - the `find({ userId })` filter (`Owned`);
  - the three helpers as methods;
  - class `TodoStore`, which holds the collection as a map from `_id` to `Todo` and has one method per handler.
- `todo_scenarios.dfy`, module `TodoScenarios`: a client method that follows one todo through create, update and delete, using only the handlers' contracts.

The decision conditions are defined once as predicates, and the handlers' contracts restate the source's guards through them:
- `WantsInsert`: the request has a reminder and the user has tokens.
- `WantsPatch`: the saved record has an event id and a reminder, and the user has tokens.
- `WantsRemoteDelete`: the record has an event id and the user has tokens.
- `Owns`: `findOne({ _id, userId })` finds the record.

### Conventions

- Instants are integer milliseconds. `ISO` formatting is not modelled.
- A Date holds ±8.64e15 ms (`MaxTime`). A reminder outside that range does not cast to a Date, so Mongoose rejects the save and the handler answers 500.
- An event end past that range makes `toISOString` throw inside the helper's `try`. No calendar request is sent, and the helper reports a failure (`BuildEvent` returns `None`).
- Request fields are modelled after casting:
  - a string is `None` when omitted, and `""` is the other falsy string;
  - a reminder is `None` for every falsy value;
  - `completed` is `None` exactly when it is `undefined`.
- Document `_id`s and Google event ids are opaque naturals. They come from counters, which stands for their uniqueness.
- The clock is read once per request, as the parameter `now`. The remote outcome is the parameter `calendarOk`.

## Model

| member | source | states |
|---|---|---|
| `TodoModel.NewTodo` | backend/src/models/todoModel.js:3-22 | The first save succeeds exactly when the title is present and non-empty and the reminder casts to a Date. On failure it reports which check failed. On success the record is valid, carries the owner, title, description and reminder given, has `completed == false` and no event id, and both timestamps equal the save instant. |
| `TodoModel.Stamp` | backend/src/models/todoModel.js:21 | A save keeps the content and `createdAt`. It moves `updatedAt` to the save instant exactly when some field changed, and otherwise keeps the previous `updatedAt`. |
| `CalendarEvent.BuildEvent` | backend/src/controllers/todoController.js:15-26 | An event exists exactly when the reminder is set and both it and reminder + 30 min are representable instants. Its summary is the title and its description the description. Its start is the reminder and its end is start + 1 800 000 ms. Both ends carry time zone `Asia/Kolkata`. |
| `CalendarEvent.BuildEventReadsContent` | backend/src/controllers/todoController.js:51-62 | Two todos with the same title, description and reminder give the same event. The update path therefore builds exactly what the create path builds, whatever the completion flag, event id or timestamps. |
| `CalendarEvent.StoredReminderHasEvent` | backend/src/controllers/todoController.js:19-23 | A valid stored todo whose reminder is not within the last half hour a Date can hold always yields an event. |
| `GoogleCalendar.PatchInto` | backend/src/controllers/todoController.js:64-68 | A patch replaces summary, start and end. It replaces the description only when the patch carries one: an undefined description is absent from the request. |
| `GoogleCalendar.PatchIdempotent` | backend/src/controllers/todoController.js:64-68 | Sending the same patch twice leaves the event as sending it once does. |
| `GoogleCalendar.Calendar.Insert` | backend/src/controllers/todoController.js:28-31 | The insert request is logged. On success the event is stored under a fresh id, which is returned. On failure nothing but the log changes. |
| `GoogleCalendar.Calendar.Patch` | backend/src/controllers/todoController.js:64-68 | The patch request is logged. It succeeds exactly when the provider accepts and the id exists, and then only that event changes. |
| `GoogleCalendar.Calendar.Delete` | backend/src/controllers/todoController.js:88-91 | The delete request is logged. It succeeds exactly when the provider accepts and the id exists, and then only that event is removed. |
| `TodoController.Owned` | backend/src/controllers/todoController.js:100 | The result holds exactly the records whose `userId` is the given user, unchanged. |
| `TodoController.Merge` | backend/src/controllers/todoController.js:143-148 | Title, description and reminder take the request value when it is truthy and otherwise keep the stored one. `completed` keeps the stored value only when the request omits it. The save fails exactly when the reminder does not cast (or the title would end up empty). Owner, event id and `createdAt` never change, and a set reminder can never be cleared. Validity is preserved. `updatedAt` moves exactly when some field changed. |
| `TodoController.MergeIdempotent` | backend/src/controllers/todoController.js:143-148 | Applying the same update request a second time, at any instant, changes nothing, `updatedAt` included. |
| `TodoController.MergeEmptyBody` | backend/src/controllers/todoController.js:143-148 | A request that sets no field leaves a valid record exactly as it was. |
| `TodoController.EditsPreserveIdentity` | backend/src/controllers/todoController.js:138-148 | After any sequence of update requests on a valid record, it is still valid. It has the same owner, event id and `createdAt`, and still has a reminder if it had one. |
| `TodoController.OwnedAfterWrite` | backend/src/controllers/todoController.js:140-148 | Writing a record that belongs to one user does not change what any other user's `find` returns. |
| `TodoController.OwnedAfterRemove` | backend/src/controllers/todoController.js:169-184 | Removing a record that is not a user's does not change what that user's `find` returns. |
| `TodoController.CreateCalendarEvent` | backend/src/controllers/todoController.js:5-38 | If the event cannot be built, it reports failure and sends no request. Otherwise it sends exactly one insert of `BuildEvent(todo)` and returns the new event's id exactly when the calendar accepted it. |
| `TodoController.UpdateCalendarEvent` | backend/src/controllers/todoController.js:41-75 | If the event cannot be built or there is no event id, it reports failure and sends no request. Otherwise it sends exactly one patch of `BuildEvent(todo)` to the record's stored event id. It never inserts and never hands out an id. |
| `TodoController.DeleteCalendarEvent` | backend/src/controllers/todoController.js:78-95 | It sends exactly one delete for the given id and reports nothing. On success the event is gone. On failure the calendar is unchanged, because a failed request is assumed to have had no remote effect (see Left out). |
| `TodoController.TodoStore.GetTodos` | backend/src/controllers/todoController.js:98-105 | Status 200, and the body holds exactly the caller's records with their stored values. Nothing changes. |
| `TodoController.TodoStore.CreateTodo` | backend/src/controllers/todoController.js:107-136 | A rejected save answers 500 and changes nothing. Otherwise the record is stored under a fresh id and the answer is 201, whatever the calendar does. An insert is sent iff the request has a reminder, the user has tokens and the event can be built. The stored `googleEventId` is the id the calendar returned, and the stored event is `BuildEvent` of the record. If the insert fails or is not sent, the event id is absent and no other field differs from the first save. Other users' records are untouched. |
| `TodoController.TodoStore.UpdateTodo` | backend/src/controllers/todoController.js:138-164 | An id the caller does not own answers 404, with no calendar request and no change. A rejected merge answers 500 and changes nothing. Otherwise the merged record is saved and answered with 200. A patch to the stored event id is sent only when the record has an event id and a reminder and the user has tokens. No insert is ever sent, the event id never changes, and the answer does not depend on the calendar. |
| `TodoController.TodoStore.DeleteTodo` | backend/src/controllers/todoController.js:166-189 | An id the caller does not own answers 404, with no calendar request and no change. Otherwise a remote delete is sent only when the record has an event id and the user has tokens. The record is removed and `Todo deleted` is answered with 200 whatever the calendar did. |
| `TodoScenarios.CreateMoveDelete` | backend/src/controllers/todoController.js:107-189 | Against a calendar that accepts every request, a linked user creates, reschedules and deletes one todo. The calendar receives exactly one insert, a patch of the new time to the id the insert returned, and a delete of that id. Afterwards both the calendar and the store are empty. |

## Left out

- `TodoController.TodoStore.GetTodos`: the records are returned as a map keyed by `_id`. The order of the list Mongo returns is not modelled.
- `TodoController.TodoStore.CreateTodo`: both saves use one clock reading, so `updatedAt` after the second save equals the first save's instant.
- Database failures are left out: the store is modelled as reliable. A failed read or first save would reach the outer `catch` blocks, which answer 500 with the driver's message.
- `TodoController.TodoStore.CreateTodo`: a failed second save (the one that records the event id) is not modelled. The inner `try`/`catch` would swallow it, and the answer would still be 201, carrying an event id the database does not hold.
- An `_id` that is not a well-formed ObjectId makes `findOne` throw a CastError (500). The model treats every id as well-formed, so an unknown id is a 404.
- Request values of other JSON types are left out:
  - a non-string title or description;
  - a reminder sent as the number `0`, which is falsy yet casts to the epoch;
  - a `completed` of `null` or of a non-boolean type.
- The OAuth flow (`backend/src/routes/google.js`, `backend/src/lib/googleOAuth.js`) is left out because it is a foreign library. Linking gives the caller tokens. Disconnecting (`backend/src/routes/google.js:34`) leaves `googleTokens` as `None`, for which the model sends no calendar request at all. Tokens are opaque. The application never refreshes tokens and never saves new ones. The tokens come from an offline-access consent, so they carry a refresh token, and the googleapis client may refresh an expired access token inside a request without saving it. That refresh, and its failure, are part of the success/failure choice `calendarOk`.
- A calendar request reported as failed is assumed to have had no remote effect. The code cannot tell a refusal from a request that Google applied but whose reply was lost (a timeout, a dropped connection). In that case an insert would leave an event no todo refers to, and a delete would remove an event the model still holds.
- The calendar is one abstract object standing for the primary calendar of the account behind the caller's tokens. A user who reconnects to another Google account, and edits made on the calendar by other clients, are not modelled.
- Event fields other than summary, description, start and end are not modelled, and neither are the ISO-8601 text of the instants or the logging to the console.
- Concurrency between requests is not modelled: each handler runs as one atomic step.
- The frontend, chat, subscription and Stripe code, the routing tables, JWT/cookie utilities and the subscription middleware are not part of this model.

Behaviour a calendar sync engine might be expected to have, which the code does not have and so the model does not either:
- An update never creates an event, even when a reminder is added to a todo without one.
- An update never deletes an event. A reminder cannot be cleared anyway.
- An update patches without checking whether anything changed.
- Failures are not classified. A 404 from the calendar is not treated as "already absent".
- Remote failures are swallowed rather than reported to the caller.
