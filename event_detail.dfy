/** The event page (frontend/src/pages/EventDetail.jsx): on load it works out
    whether the user is registered from the server list and the local fallback
    list; "confirm registered" marks the event at once, tries the server, and
    otherwise saves a snapshot locally. */
module EventDetail {
  import opened Values
  import opened Docs
  import opened Browser

  const LoadFailedMessage := "Failed to load event."
  const NotLoadedMessage := "Event not loaded yet. Try again."
  const SaveFailedMessage := "Could not save registration locally."
  const UntitledEvent := "Untitled Event"

  /** The server's registered list; a failed request contributes nothing. */
  function ServerList(mine: MineReply): seq<Doc> {
    if mine.MineOk? then mine.entries else []
  }

  /** The id a server entry adds: its `_id || id`, when there is one. */
  function ServerContribution(e: Doc): set<string> {
    if DocId(e) != "" then {DocId(e)} else {}
  }

  /** The ids `load` collects from the server list. */
  function ServerIds(entries: seq<Doc>): set<string> {
    if entries == [] then {}
    else ServerIds(entries[..|entries| - 1]) + ServerContribution(entries[|entries| - 1])
  }

  /** The id a local entry adds: its `_id`, or, for an entry without one whose title
      is the event's title, the event's `_id` or `local-<title>`. */
  function LocalContribution(le: Doc, ev: Doc): set<string> {
    if le.oid != "" then {le.oid}
    else if le.title != "" && ev.title != "" && le.title == ev.title then {Or(ev.oid, "local-" + le.title)}
    else {}
  }

  /** The ids `load` collects from the local list. */
  function LocalIds(local: seq<Doc>, ev: Doc): set<string> {
    if local == [] then {}
    else LocalIds(local[..|local| - 1], ev) + LocalContribution(local[|local| - 1], ev)
  }

  lemma {:induction false} ServerIdsMembers(entries: seq<Doc>, x: string)
    ensures x in ServerIds(entries) <==> x != "" && exists i :: 0 <= i < |entries| && DocId(entries[i]) == x
  {
    if entries != [] {
      var n := |entries| - 1;
      ServerIdsMembers(entries[..n], x);
      if x in ServerIds(entries[..n]) {
        var i :| 0 <= i < n && DocId(entries[..n][i]) == x;
        assert DocId(entries[i]) == x;
      }
      if exists i :: 0 <= i < |entries| && DocId(entries[i]) == x {
        var i :| 0 <= i < |entries| && DocId(entries[i]) == x;
        if i < n {
          assert entries[..n][i] == entries[i];
        }
      }
    }
  }

  lemma {:induction false} LocalIdsMembers(local: seq<Doc>, ev: Doc, x: string)
    ensures x in LocalIds(local, ev) <==> exists i :: 0 <= i < |local| && x in LocalContribution(local[i], ev)
  {
    if local != [] {
      var n := |local| - 1;
      LocalIdsMembers(local[..n], ev, x);
      if x in LocalIds(local[..n], ev) {
        var i :| 0 <= i < n && x in LocalContribution(local[..n][i], ev);
        assert x in LocalContribution(local[i], ev);
      }
      if exists i :: 0 <= i < |local| && x in LocalContribution(local[i], ev) {
        var i :| 0 <= i < |local| && x in LocalContribution(local[i], ev);
        if i < n {
          assert local[..n][i] == local[i];
        }
      }
    }
  }

  /** `registeredSet.has((eventId || '').toString())` after `load`. */
  predicate RegisteredOnLoad(server: seq<Doc>, local: seq<Doc>, ev: Doc) {
    DocId(ev) in ServerIds(server) + LocalIds(local, ev)
  }

  /** The event counts as registered exactly when its id is non-empty and is a
      server id, a local `_id`, or the id a title-matched local entry stands for. */
  lemma RegisteredOnLoadIff(server: seq<Doc>, local: seq<Doc>, ev: Doc)
    ensures RegisteredOnLoad(server, local, ev) <==>
      && DocId(ev) != ""
      && (|| (exists i :: 0 <= i < |server| && DocId(server[i]) == DocId(ev))
          || (exists i :: 0 <= i < |local| && local[i].oid == DocId(ev))
          || (exists i :: 0 <= i < |local| && local[i].oid == "" && local[i].title != ""
                && local[i].title == ev.title && Or(ev.oid, "local-" + ev.title) == DocId(ev)))
  {
    ServerIdsMembers(server, DocId(ev));
    LocalIdsMembers(local, ev, DocId(ev));
  }

  /** For an event the server sent (it has an `_id`): registered iff the server
      lists it, a local entry carries its `_id`, or a local entry without `_id`
      carries its title. */
  lemma RegisteredOnLoadServerEvent(server: seq<Doc>, local: seq<Doc>, ev: Doc)
    requires ev.oid != ""
    ensures RegisteredOnLoad(server, local, ev) <==>
      || (exists i :: 0 <= i < |server| && DocId(server[i]) == ev.oid)
      || (exists i :: 0 <= i < |local| && local[i].oid == ev.oid)
      || (exists i :: 0 <= i < |local| && local[i].oid == "" && local[i].title != "" && local[i].title == ev.title)
  {
    RegisteredOnLoadIff(server, local, ev);
  }

  /** The two `forEach` loops of `load` that fill the registered set. */
  method CollectRegistered(server: seq<Doc>, local: seq<Doc>, ev: Doc) returns (ids: set<string>)
    ensures ids == ServerIds(server) + LocalIds(local, ev)
    ensures "" !in ids
  {
    ids := {};
    var i := 0;
    while i < |server|
      invariant 0 <= i <= |server|
      invariant ids == ServerIds(server[..i])
      invariant "" !in ids
    {
      assert server[..i + 1][..i] == server[..i];
      var d := DocId(server[i]);
      if d != "" {
        ids := ids + {d};
      }
      i := i + 1;
    }
    assert server[..|server|] == server;
    var j := 0;
    while j < |local|
      invariant 0 <= j <= |local|
      invariant ids == ServerIds(server) + LocalIds(local[..j], ev)
      invariant "" !in ids
    {
      assert local[..j + 1][..j] == local[..j];
      var le := local[j];
      if le.oid != "" {
        ids := ids + {le.oid};
      } else if le.title != "" && ev.title != "" && le.title == ev.title {
        ids := ids + {Or(ev.oid, "local-" + le.title)};
      }
      j := j + 1;
    }
    assert local[..|local|] == local;
  }

  /** `event._id || event.id || local-<time>`: never empty. */
  function RealId(ev: Doc, stamp: string): (r: string)
    ensures r != ""
    ensures DocId(ev) != "" ==> r == DocId(ev)
    ensures DocId(ev) == "" ==> r == "local-" + stamp
  {
    Or(Or(ev.oid, ev.id), "local-" + stamp)
  }

  /** The entry saved locally when the server did not confirm. */
  function Snapshot(ev: Doc, realId: string): (s: Doc)
    ensures s.oid == realId && s.id == ""
    ensures s.title != "" && (ev.title != "" ==> s.title == ev.title)
    ensures ev.registrationLink != "" ==> s.registrationLink == ev.registrationLink
    ensures ev.registrationLink == "" ==> s.registrationLink == ev.googleForm
    ensures s.date == ev.date && s.club == ev.club && s.description == ev.description && s.image == ev.image
    ensures s.googleForm == "" && s.category == ""
  {
    Doc(realId, "", Or(ev.title, UntitledEvent), ev.club, ev.description, ev.date,
        Or(ev.registrationLink, ev.googleForm), "", ev.image, "")
  }

  function RegisterPath(id: string): string {
    "/events/" + id + "/register"
  }

  /** After a fallback save that appended, reloading the page finds the event registered. */
  lemma FallbackSeenOnReload(storage: map<string, Slot>, key: string, ev: Doc, stamp: string, server: seq<Doc>)
    requires DocId(ev) != ""
    ensures var saved := SaveLocally(storage, key, Snapshot(ev, RealId(ev, stamp)));
      saved.appended ==> RegisteredOnLoad(server, StoredEntries(saved.storage, key), ev)
  {
    var snap := Snapshot(ev, RealId(ev, stamp));
    var saved := SaveLocally(storage, key, snap);
    if saved.appended {
      var list := StoredEntries(saved.storage, key);
      assert list[|list| - 1] == snap;
      assert DocId(ev) in LocalContribution(snap, ev);
    }
  }

  /** A different event that shares its title with an entry already saved is never
      recorded locally, and a reload does not find it registered. */
  lemma SameTitleBlocksLocalRecord()
    ensures var key := LocalKey("u1");
      var storage := map[key := Stored([Entry("a1", "", "Hackfest")])];
      var ev := Entry("b2", "", "Hackfest");
      var saved := SaveLocally(storage, key, Snapshot(ev, RealId(ev, "1")));
      && !saved.appended && !saved.failed
      && !RegisteredOnLoad([], StoredEntries(saved.storage, key), ev)
  {
    var key := LocalKey("u1");
    var list := [Entry("a1", "", "Hackfest")];
    var ev := Entry("b2", "", "Hackfest");
    assert Clash(list[0], Snapshot(ev, RealId(ev, "1")));
    assert LocalIds(list, ev) == LocalIds([], ev) + LocalContribution(list[0], ev);
    assert ServerIds([]) == {};
  }

  /** The page's state. */
  class EventDetailPage {
    const window: Window
    var event: Option<Doc>
    var loading: bool
    var isRegistered: bool
    var registering: bool
    /** The message shown; "" for none. */
    var error: string

    constructor (window: Window)
      ensures this.window == window
      ensures event.None? && loading && !isRegistered && !registering && error == ""
    {
      this.window := window;
      event := None;
      loading := true;
      isRegistered := false;
      registering := false;
      error := "";
    }

    /** `load`: the event request, then `/auth/me` for the key, then `/events/mine`
        and the local list. */
    method Load(reply: EventReply, me: MeReply, mine: MineReply)
      modifies this
      ensures !loading && registering == old(registering)
      ensures reply.EventFailed? ==>
        && event == old(event) && isRegistered == old(isRegistered)
        && error == LoadFailedMessage
      ensures reply.EventOk? ==>
        && event == Some(reply.event) && error == ""
        && isRegistered == RegisteredOnLoad(
             ServerList(mine), StoredEntries(window.storage, LocalKey(MeId(me))), reply.event)
    {
      loading := true;
      error := "";
      match reply {
        case EventFailed =>
          error := LoadFailedMessage;
        case EventOk(ev) =>
          event := Some(ev);
          var key := LocalKey(MeId(me));
          var ids := CollectRegistered(ServerList(mine), StoredEntries(window.storage, key), ev);
          isRegistered := DocId(ev) in ids;
      }
      loading := false;
    }

    /** `confirmRegistered`: `stamp` is the clock reading for a fresh local id,
        `reply` the server's answer to the register request, and `me` the
        `/auth/me` answer the fallback reads its key from. */
    method ConfirmRegistered(stamp: string, reply: RegisterReply, me: MeReply)
      modifies this, window
      ensures event == old(event) && loading == old(loading)
      ensures old(event).None? ==>
        && error == NotLoadedMessage
        && isRegistered == old(isRegistered) && registering == old(registering)
        && window.storage == old(window.storage) && window.signals == old(window.signals)
        && window.requests == old(window.requests) && window.location == old(window.location)
      ensures old(event).Some? && old(isRegistered) ==>
        && error == old(error) && isRegistered && registering == old(registering)
        && window.storage == old(window.storage) && window.signals == old(window.signals)
        && window.requests == old(window.requests) && window.location == old(window.location)
      ensures old(event).Some? && !old(isRegistered) ==>
        && isRegistered && !registering && window.location == MyEventsPath
        && window.requests == old(window.requests) + [Post(RegisterPath(RealId(old(event).value, stamp)))]
      ensures old(event).Some? && !old(isRegistered) && RegisterSucceeded(reply) ==>
        && window.storage == old(window.storage)
        && window.signals == old(window.signals) + [RegisteredSignal(RealId(old(event).value, stamp))]
        && error == ""
      ensures old(event).Some? && !old(isRegistered) && !RegisterSucceeded(reply) ==>
        var realId := RealId(old(event).value, stamp);
        var saved := SaveLocally(old(window.storage), LocalKey(MeId(me)), Snapshot(old(event).value, realId));
        && window.storage == saved.storage
        && window.signals == old(window.signals) + [RegisteredSignal(realId)]
             + (if saved.appended then [RegisteredSignal(realId)] else [])
        && error == (if saved.failed then SaveFailedMessage else "")
    {
      if event.None? {
        error := NotLoadedMessage;
        return;
      }
      var ev := event.value;
      var realId := RealId(ev, stamp);
      if isRegistered {
        return;
      }
      isRegistered := true;
      registering := true;
      error := "";
      window.signals := window.signals + [RegisteredSignal(realId)];
      window.requests := window.requests + [Post(RegisterPath(realId))];
      if RegisterSucceeded(reply) {
        registering := false;
        window.location := MyEventsPath;
        return;
      }
      var key := LocalKey(MeId(me));
      var saved := SaveLocally(window.storage, key, Snapshot(ev, realId));
      window.storage := saved.storage;
      if saved.appended {
        window.signals := window.signals + [RegisteredSignal(realId)];
      }
      if saved.failed {
        error := SaveFailedMessage;
      }
      registering := false;
      window.location := MyEventsPath;
    }
  }
}
