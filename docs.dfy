/** Events and saved registrations as the browser pages hold them (parsed JSON),
    the server replies the pages consume, and the delete filter that
    Events.jsx and AdminEvents.jsx share. */
module Docs {
  import opened Values

  /** An event or a locally saved registration. `oid` is the `_id` field. "" stands
      for a field that is absent, null or empty: the pages only test these fields
      for truthiness, compare them, or copy them. Dates are kept as the text the
      server sent. */
  datatype Doc = Doc(
    oid: string,
    id: string,
    title: string,
    club: string,
    description: string,
    date: string,
    registrationLink: string,
    googleForm: string,
    image: string,
    category: string)

  /** `ev._id || ev.id` */
  function DocId(d: Doc): string {
    Or(d.oid, d.id)
  }

  /** A document with only the three identifying fields set. */
  function Entry(oid: string, id: string, title: string): Doc {
    Doc(oid, id, title, "", "", "", "", "", "", "")
  }

  /** The `user` object of `GET /auth/me`, as far as the pages read it. */
  datatype MeUser = MeUser(oid: string, id: string, role: string)

  /** `GET /auth/me`: a failed request, or `{ user }` with `user` possibly null. */
  datatype MeReply = MeFailed | MeAnswered(user: Option<MeUser>)

  /** `me.data.user.id`, or "" (null) when there is none or the request failed. */
  function MeId(me: MeReply): string {
    if me.MeAnswered? && me.user.Some? then me.user.value.id else ""
  }

  /** `GET /events/:id` */
  datatype EventReply = EventFailed | EventOk(event: Doc)

  /** `GET /events` */
  datatype ListReply = ListFailed | ListOk(events: seq<Doc>)

  /** `GET /events/mine`: a failed request (401 included) or the populated list. */
  datatype MineReply = MineFailed | MineOk(entries: seq<Doc>)

  /** `POST /events/:id/register`: a failed request, or a reply with its `message`. */
  datatype RegisterReply = RegisterFailed | RegisterAnswered(message: string)

  predicate RegisterSucceeded(r: RegisterReply) {
    r.RegisterAnswered? && (r.message == "registered" || r.message == "already registered")
  }

  /** `events.filter(e => (e._id || e.id) !== id)` */
  function WithoutId(events: seq<Doc>, id: string): (r: seq<Doc>)
    ensures |r| <= |events|
    ensures forall k :: 0 <= k < |r| ==> DocId(r[k]) != id && r[k] in events
    ensures forall k :: 0 <= k < |events| && DocId(events[k]) != id ==> events[k] in r
  {
    if events == [] then []
    else (if DocId(events[0]) != id then [events[0]] else []) + WithoutId(events[1..], id)
  }

  /** The filter works element by element, so it keeps the survivors in their order. */
  lemma {:induction false} WithoutIdDistributes(a: seq<Doc>, b: seq<Doc>, id: string)
    ensures WithoutId(a + b, id) == WithoutId(a, id) + WithoutId(b, id)
  {
    if a == [] {
      assert a + b == b;
    } else {
      assert (a + b)[0] == a[0];
      assert (a + b)[1..] == a[1..] + b;
      WithoutIdDistributes(a[1..], b, id);
    }
  }

  /** The list is unchanged exactly when no event carries the id. */
  lemma {:induction false} WithoutIdUnchangedIff(events: seq<Doc>, id: string)
    ensures WithoutId(events, id) == events <==> forall k :: 0 <= k < |events| ==> DocId(events[k]) != id
  {
    if events != [] {
      WithoutIdUnchangedIff(events[1..], id);
      if DocId(events[0]) == id {
        assert |WithoutId(events, id)| < |events|;
      } else {
        assert events == [events[0]] + events[1..];
      }
    }
  }

  /** Deleting twice removes nothing more. */
  lemma WithoutIdIdempotent(events: seq<Doc>, id: string)
    ensures WithoutId(WithoutId(events, id), id) == WithoutId(events, id)
  {
    WithoutIdUnchangedIff(WithoutId(events, id), id);
  }
}
