/**
 * The remote calendar the controller talks to through `calendar.events.insert`,
 * `patch` and `delete` on the primary calendar of the account behind the
 * caller's tokens. It is abstract: a map from event id to event, a counter that
 * supplies fresh ids, and a ghost log of every request it received. Whether a
 * request succeeds is the environment's choice, passed in as `ok`; a request
 * that fails is taken to have had no effect on the remote calendar.
 */
module GoogleCalendar {
  import opened Wrappers
  import opened TodoModel
  import opened CalendarEvent

  /** The OAuth credentials stored on the user; opaque to the controller. */
  datatype Tokens = Tokens(accessToken: string, refreshToken: Option<string>)

  /** A request sent to the calendar. */
  datatype Call =
    | InsertCall(tokens: Tokens, event: EventSpec)
    | PatchCall(tokens: Tokens, eventId: EventId, patch: EventSpec)
    | DeleteCall(tokens: Tokens, eventId: EventId)

  /**
   * The event after a patch: every field the patch carries replaces the old
   * one; a description the patch leaves out (undefined, so absent from the
   * JSON body) stays as it was.
   */
  function PatchInto(current: EventSpec, patch: EventSpec): (r: EventSpec)
    ensures r.summary == patch.summary && r.start == patch.start && r.end == patch.end
    ensures patch.description.Some? ==> r.description == patch.description
    ensures patch.description.None? ==> r.description == current.description
  {
    if patch.description.Some? then patch else patch.(description := current.description)
  }

  /** Patching is idempotent: sending the same patch again leaves the event as the first one did. */
  lemma PatchIdempotent(current: EventSpec, patch: EventSpec)
    ensures PatchInto(PatchInto(current, patch), patch) == PatchInto(current, patch)
  {
  }

  class Calendar {
    var events: map<EventId, EventSpec>
    var nextId: EventId
    ghost var log: seq<Call>

    /** Every id in use was handed out before, so `nextId` is fresh. */
    ghost predicate Valid()
      reads this
    {
      forall e :: e in events ==> e < nextId
    }

    constructor ()
      ensures Valid() && events == map[] && log == []
    {
      events := map[];
      nextId := 0;
      log := [];
    }

    /** `events.insert`: on success the event is stored under a fresh id, which is returned. */
    method Insert(tokens: Tokens, event: EventSpec, ok: bool) returns (r: Option<EventId>)
      requires Valid()
      modifies this
      ensures Valid()
      ensures log == old(log) + [InsertCall(tokens, event)]
      ensures r.Some? <==> ok
      ensures ok ==> && r.value == old(nextId) && r.value !in old(events)
                     && events == old(events)[r.value := event]
                     && nextId == old(nextId) + 1
      ensures !ok ==> events == old(events) && nextId == old(nextId)
    {
      log := log + [InsertCall(tokens, event)];
      if ok {
        r := Some(nextId);
        events := events[nextId := event];
        nextId := nextId + 1;
      } else {
        r := None;
      }
    }

    /** `events.patch`: succeeds only if the provider accepts and the event exists (a 404 otherwise). */
    method Patch(tokens: Tokens, id: EventId, patch: EventSpec, ok: bool) returns (done: bool)
      requires Valid()
      modifies this
      ensures Valid()
      ensures log == old(log) + [PatchCall(tokens, id, patch)]
      ensures done <==> ok && id in old(events)
      ensures events == if done then old(events)[id := PatchInto(old(events)[id], patch)]
                        else old(events)
      ensures nextId == old(nextId)
    {
      log := log + [PatchCall(tokens, id, patch)];
      done := ok && id in events;
      if done {
        events := events[id := PatchInto(events[id], patch)];
      }
    }

    /** `events.delete`: succeeds only if the provider accepts and the event exists. */
    method Delete(tokens: Tokens, id: EventId, ok: bool) returns (done: bool)
      requires Valid()
      modifies this
      ensures Valid()
      ensures log == old(log) + [DeleteCall(tokens, id)]
      ensures done <==> ok && id in old(events)
      ensures events == if done then old(events) - {id} else old(events)
      ensures nextId == old(nextId)
    {
      log := log + [DeleteCall(tokens, id)];
      done := ok && id in events;
      if done {
        events := events - {id};
      }
    }
  }
}
