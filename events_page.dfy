/** The student event list (frontend/src/pages/Events.jsx): the list, the set
    of ids announced as registered, and the administrator's delete. */
module EventsList {
  import opened Docs
  import opened Browser

  /** The delete request for an event. */
  function DeletePath(id: string): string {
    "/events/" + id
  }

  class EventsPage {
    const window: Window
    var events: seq<Doc>
    var loading: bool
    var registeredIds: set<string>

    constructor (window: Window)
      ensures this.window == window && events == [] && loading && registeredIds == {}
    {
      this.window := window;
      events := [];
      loading := true;
      registeredIds := {};
    }

    /** `loadEvents`: a failed request empties the list. */
    method LoadEvents(reply: ListReply)
      modifies this
      ensures !loading
      ensures reply.ListOk? ==> events == reply.events
      ensures reply.ListFailed? ==> events == []
      ensures registeredIds == old(registeredIds)
    {
      loading := true;
      match reply {
        case ListOk(list) => events := list;
        case ListFailed => events := [];
      }
      loading := false;
    }

    /** The `registered:event` listener: a notification without an id is ignored,
        any other adds the id and keeps every earlier one. */
    method OnRegistered(id: string)
      modifies this
      ensures id == "" ==> registeredIds == old(registeredIds)
      ensures id != "" ==> registeredIds == old(registeredIds) + {id}
      ensures old(registeredIds) <= registeredIds
      ensures forall ev :: ShowsRegistered(ev) <==> old(ShowsRegistered(ev)) || (id != "" && DocId(ev) == id)
      ensures events == old(events) && loading == old(loading)
    {
      if id == "" {
        return;
      }
      registeredIds := registeredIds + {id};
    }

    /** The card badge: the event's id is among the announced ids. */
    predicate ShowsRegistered(ev: Doc)
      reads this
    {
      DocId(ev) in registeredIds
    }

    /** `handleDelete`: `confirmed` is the answer to `window.confirm`, `deleted`
        whether the delete request succeeded. */
    method HandleDelete(id: string, confirmed: bool, deleted: bool)
      modifies this, window
      ensures registeredIds == old(registeredIds) && loading == old(loading)
      ensures window.storage == old(window.storage) && window.location == old(window.location)
      ensures !confirmed ==>
        && events == old(events)
        && window.requests == old(window.requests) && window.signals == old(window.signals)
      ensures confirmed ==> window.requests == old(window.requests) + [Delete(DeletePath(id))]
      ensures confirmed && deleted ==>
        events == WithoutId(old(events), id) && window.signals == old(window.signals) + [EventsUpdated]
      ensures confirmed && !deleted ==> events == old(events) && window.signals == old(window.signals)
    {
      if !confirmed {
        return;
      }
      window.requests := window.requests + [Delete(DeletePath(id))];
      if deleted {
        events := WithoutId(events, id);
        window.signals := window.signals + [EventsUpdated];
      }
    }
  }
}
