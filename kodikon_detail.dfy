/** The KODIKON page (frontend/src/pages/KodikonDetail.jsx): it picks the
    hackathon out of the event list by title, checks whether the user is
    registered, and records a registration like the event page does, with a
    built-in record when the list has no such event. */
module KodikonDetail {
  import opened Values
  import opened Docs
  import opened Browser
  import EventDetail

  const SaveFailedMessage := "Could not save Kodikon locally."

  /** `(e.title || '').toLowerCase().includes('kodikon')` */
  predicate IsKodikon(e: Doc) {
    Contains(Lower(e.title), "kodikon")
  }

  /** `list.find(...)`: the first Kodikon event of the list. */
  function SelectKodikon(events: seq<Doc>): (r: Option<Doc>)
    ensures r.None? <==> forall i :: 0 <= i < |events| ==> !IsKodikon(events[i])
    ensures r.Some? ==> exists i ::
      && 0 <= i < |events| && events[i] == r.value && IsKodikon(events[i])
      && forall j :: 0 <= j < i ==> !IsKodikon(events[j])
  {
    if events == [] then None
    else if IsKodikon(events[0]) then Some(events[0])
    else
      var r := SelectKodikon(events[1..]);
      if r.Some? then
        var i :| 0 <= i < |events[1..]| && events[1..][i] == r.value && IsKodikon(events[1..][i])
          && forall j :: 0 <= j < i ==> !IsKodikon(events[1..][j]);
        assert forall j :: 0 <= j < i + 1 ==> !IsKodikon(events[j]) by {
          forall j | 0 <= j < i + 1
            ensures !IsKodikon(events[j])
          {
            if j > 0 {
              assert events[j] == events[1..][j - 1];
            }
          }
        }
        r
      else r
  }

  /** A title starting with `p` lower-cases to one containing `Lower(p)`. */
  lemma LowerStartsWith(p: string, rest: string, q: string)
    requires Lower(p) == q
    ensures Contains(Lower(p + rest), q)
  {
    assert Lower(p + rest)[..|p|] == q;
  }

  /** The match is on the lower-cased title, so any capitalisation is found. */
  lemma UpperCaseTitleSelected(rest: seq<Doc>)
    ensures SelectKodikon([Entry("k1", "", "KODIKON 5.0")] + rest) == Some(Entry("k1", "", "KODIKON 5.0"))
  {
    var e := Entry("k1", "", "KODIKON 5.0");
    LowerStartsWith("KODIKON", " 5.0", "kodikon");
    assert "KODIKON" + " 5.0" == e.title;
    assert ([e] + rest)[0] == e;
  }

  /** The server's ids for the `check`: `registeredEvents.map(e => e._id || e.id)`. */
  function ServerIdList(mine: MineReply): seq<string> {
    if mine.MineOk? then MapDocIds(mine.entries) else []
  }

  function MapDocIds(entries: seq<Doc>): (r: seq<string>)
    ensures |r| == |entries| && forall i :: 0 <= i < |r| ==> r[i] == DocId(entries[i])
  {
    if entries == [] then [] else [DocId(entries[0])] + MapDocIds(entries[1..])
  }

  /** The local test of `check`: same non-empty `_id` as the event's id, or same non-empty title. */
  predicate LocalMatch(l: Doc, ev: Doc) {
    (l.oid != "" && l.oid == DocId(ev)) || (l.title != "" && l.title == ev.title)
  }

  /** `check`: whether the page shows the event as registered. */
  function CheckRegistered(event: Option<Doc>, mine: MineReply, me: MeReply, storage: map<string, Slot>): (r: bool)
    ensures event.None? ==> !r
    ensures event.Some? && DocId(event.value) in ServerIdList(mine) ==> r
    ensures event.Some? && DocId(event.value) !in ServerIdList(mine) ==>
      var key := LocalKey(MeId(me));
      (r <==> (&& key in storage && storage[key].Stored?
               && exists i :: 0 <= i < |storage[key].entries| && LocalMatch(storage[key].entries[i], event.value)))
  {
    if event.None? then false
    else
      var ev := event.value;
      if DocId(ev) in ServerIdList(mine) then true
      else
        var key := LocalKey(MeId(me));
        if key in storage then
          match storage[key]
          case Garbled => false
          case Stored(list) => exists i :: 0 <= i < |list| && LocalMatch(list[i], ev)
        else false
  }

  const KodikonImage := "/images/kodikon.jpeg"

  /** The record the page registers when the list has no Kodikon event. */
  function DefaultKodikon(stamp: string): (d: Doc)
    ensures d.oid == "local-kodikon-" + stamp && IsKodikon(d)
    ensures d.image == KodikonImage
  {
    var d := Doc(
      "local-kodikon-" + stamp, "",
      "KODIKON" + " 5.0 — 24 Hour National Hackathon",
      "Embryone",
      "KODIKON 5.0 — national-level hackathon powered by Pixcellence.",
      "2025-11-15",
      "https://hack2skill.com/hack/kodikon5.0", "",
      KodikonImage, "");
    LowerStartsWith("KODIKON", " 5.0 — 24 Hour National Hackathon", "kodikon");
    d
  }

  /** `evObj._id || local-<time>`: only `_id` counts here, not `id`. */
  function RealId(evObj: Doc, stamp: string): (r: string)
    ensures r != "" && (evObj.oid != "" ==> r == evObj.oid)
  {
    Or(evObj.oid, "local-" + stamp)
  }

  /** The snapshot copies the record's fields as they are, with no defaults. */
  function Snapshot(evObj: Doc, realId: string): (s: Doc)
    ensures s.oid == realId && s.id == "" && s.title == evObj.title
    ensures s.date == evObj.date && s.club == evObj.club && s.description == evObj.description
    ensures s.image == evObj.image && s.registrationLink == evObj.registrationLink
    ensures s.googleForm == "" && s.category == ""
  {
    Doc(realId, "", evObj.title, evObj.club, evObj.description, evObj.date, evObj.registrationLink, "", evObj.image, "")
  }

  /** The KODIKON page names its local record as the event page does, except
      that it never falls back to a plain `id`. */
  lemma RealIdAgreesWithEventPage(evObj: Doc, stamp: string)
    ensures evObj.oid != "" || evObj.id == "" ==> RealId(evObj, stamp) == EventDetail.RealId(evObj, stamp)
    ensures evObj.oid == "" && evObj.id != "" ==>
      RealId(evObj, stamp) == "local-" + stamp && EventDetail.RealId(evObj, stamp) == evObj.id
  {
  }

  /** Both pages save the same snapshot of a record that has a title and a
      registration link; only the event page fills those two in. */
  lemma SnapshotAgreesWithEventPage(evObj: Doc, realId: string)
    ensures evObj.title != "" && evObj.registrationLink != "" ==>
      Snapshot(evObj, realId) == EventDetail.Snapshot(evObj, realId)
    ensures evObj.title == "" ==> Snapshot(evObj, realId) != EventDetail.Snapshot(evObj, realId)
  {
  }

  /** A local save made for a found event with an `_id` is seen by the next
      `check`, whatever the server answers then. */
  lemma FallbackSeenByCheck(storage: map<string, Slot>, me: MeReply, mine: MineReply, ev: Doc, stamp: string)
    requires ev.oid != ""
    ensures var key := LocalKey(MeId(me));
      var saved := SaveLocally(storage, key, Snapshot(ev, RealId(ev, stamp)));
      !saved.failed ==> CheckRegistered(Some(ev), mine, me, saved.storage)
  {
    var key := LocalKey(MeId(me));
    var snap := Snapshot(ev, RealId(ev, stamp));
    var saved := SaveLocally(storage, key, snap);
    if !saved.failed && DocId(ev) !in ServerIdList(mine) {
      SavedSnapshotIsFound(storage, key, snap);
      var list := StoredEntries(saved.storage, key);
      var i :| 0 <= i < |list| && Clash(list[i], snap);
      assert LocalMatch(list[i], ev);
    }
  }

  /** The page's state. */
  class KodikonPage {
    const window: Window
    var event: Option<Doc>
    var loading: bool
    var isRegistered: bool
    var registering: bool
    /** The message shown; "" for none. */
    var error: string

    constructor (window: Window)
      ensures this.window == window
      ensures event.None? && loading && !isRegistered && !registering && error == ""
    {
      this.window := window;
      event := None;
      loading := true;
      isRegistered := false;
      registering := false;
      error := "";
    }

    /** `load`: a failed request or a list without a Kodikon event leaves `event` as it was. */
    method Load(reply: ListReply)
      modifies this
      ensures !loading
      ensures reply.ListOk? && SelectKodikon(reply.events).Some? ==> event == SelectKodikon(reply.events)
      ensures reply.ListFailed? || SelectKodikon(reply.events).None? ==> event == old(event)
      ensures isRegistered == old(isRegistered) && registering == old(registering) && error == old(error)
    {
      loading := true;
      if reply.ListOk? {
        var found := SelectKodikon(reply.events);
        if found.Some? {
          event := found;
        }
      }
      loading := false;
    }

    /** `check`, run whenever `event` changes. */
    method Check(mine: MineReply, me: MeReply)
      modifies this
      ensures isRegistered == CheckRegistered(event, mine, me, window.storage)
      ensures event == old(event) && loading == old(loading)
      ensures registering == old(registering) && error == old(error)
    {
      isRegistered := CheckRegistered(event, mine, me, window.storage);
    }

    /** `confirmRegistered`: `stamp` is the clock reading for fresh local ids, `reply`
        the server's answer (consulted only when a request is sent), and `me` the
        `/auth/me` answer the fallback reads its key from. */
    method ConfirmRegistered(stamp: string, reply: RegisterReply, me: MeReply)
      modifies this, window
      ensures event == old(event) && loading == old(loading)
      ensures old(isRegistered) ==>
        && isRegistered && registering == old(registering) && error == old(error)
        && window.storage == old(window.storage) && window.signals == old(window.signals)
        && window.requests == old(window.requests) && window.location == old(window.location)
      ensures !old(isRegistered) ==>
        && isRegistered && !registering && window.location == MyEventsPath
      ensures !old(isRegistered) ==>
        var sent := old(event).Some? && DocId(old(event).value) != "";
        && (sent ==> window.requests == old(window.requests) + [Post("/events/" + DocId(old(event).value) + "/register")])
        && (!sent ==> window.requests == old(window.requests))
      ensures !old(isRegistered) && old(event).Some? && DocId(old(event).value) != "" && RegisterSucceeded(reply) ==>
        && window.storage == old(window.storage)
        && window.signals == old(window.signals) + [RegisteredSignal(RealId(old(event).value, stamp))]
        && error == ""
      ensures !old(isRegistered) && !(old(event).Some? && DocId(old(event).value) != "" && RegisterSucceeded(reply)) ==>
        var evObj := if old(event).Some? then old(event).value else DefaultKodikon(stamp);
        var realId := RealId(evObj, stamp);
        var saved := SaveLocally(old(window.storage), LocalKey(MeId(me)), Snapshot(evObj, realId));
        && window.storage == saved.storage
        && window.signals == old(window.signals) + [RegisteredSignal(realId)]
             + (if saved.appended then [RegisteredSignal(realId)] else [])
        && error == (if saved.failed then SaveFailedMessage else "")
    {
      var evObj := if event.Some? then event.value else DefaultKodikon(stamp);
      var realId := RealId(evObj, stamp);
      if isRegistered {
        return;
      }
      isRegistered := true;
      registering := true;
      error := "";
      window.signals := window.signals + [RegisteredSignal(realId)];
      if event.Some? && DocId(event.value) != "" {
        window.requests := window.requests + [Post("/events/" + DocId(event.value) + "/register")];
        if RegisterSucceeded(reply) {
          registering := false;
          window.location := MyEventsPath;
          return;
        }
      }
      var key := LocalKey(MeId(me));
      var saved := SaveLocally(window.storage, key, Snapshot(evObj, realId));
      window.storage := saved.storage;
      if saved.appended {
        window.signals := window.signals + [RegisteredSignal(realId)];
      }
      if saved.failed {
        error := SaveFailedMessage;
      }
      registering := false;
      window.location := MyEventsPath;
    }
  }
}
