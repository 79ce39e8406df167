/** The event routes (backend/routes/eventRoutes.js): the two guards, the
    listing, the caller's registrations, single-event lookup, the unguarded
    create/update/delete, and registration, which appends to the user's
    `registeredEvents` in place. The collections are sequences in store order;
    the title/category pattern query of `GET /:id` is the abstract predicate
    `matches`. */
module EventRoutes {
  import opened Values
  import opened ObjectIds
  import opened EventSchema
  import opened UserSchema
  import opened Sessions

  // ---------- Guards ----------

  datatype Guard = Next | Halt(status: int, message: string)

  /** `requireAuth` */
  function RequireAuth(session: Session): (g: Guard)
    ensures g.Next? <==> session.user.Some?
    ensures g.Halt? ==> g == Halt(401, "unauthenticated")
  {
    if session.user.None? then Halt(401, "unauthenticated") else Next
  }

  /** `requireAdmin`: looks the session's principal up among the users and
      demands a truthy `isAdmin`. The user is loaded as a schema document, and
      the User schema declares no `isAdmin`, so the test never sees one: every
      user the lookup finds is refused. */
  function RequireAdmin(session: Session, users: seq<User>): (g: Guard)
    ensures g.Halt?
    ensures session.user.None? ==> g == Halt(401, "unauthenticated")
    ensures session.user.Some? && FindById(users, session.user.value.id).None? ==>
      g == Halt(404, "user not found")
    ensures session.user.Some? && FindById(users, session.user.value.id).Some? ==>
      g == Halt(403, "forbidden: admin required")
  {
    if session.user.None? then Halt(401, "unauthenticated")
    else match FindById(users, session.user.value.id)
      case None => Halt(404, "user not found")
      case Some(_) => Halt(403, "forbidden: admin required")
  }

  // ---------- GET / ----------

  predicate SortedByDate(s: seq<EventRecord>) {
    forall i, j :: 0 <= i < j < |s| ==> s[i].date <= s[j].date
  }

  /** The head of a date-sorted list is dated no later than any of its events. */
  lemma HeadIsEarliest(s: seq<EventRecord>)
    requires SortedByDate(s) && s != []
    ensures forall x | x in s :: s[0].date <= x.date
  {
    forall x | x in s ensures s[0].date <= x.date {
      var k :| 0 <= k < |s| && s[k] == x;
    }
  }

  /** Every member of a list with the multiset of `s` plus `e` is `e` or a member of `s`. */
  lemma MembersOfInsertion(e: EventRecord, s: seq<EventRecord>, r: seq<EventRecord>)
    requires multiset(r) == multiset(s) + multiset{e}
    ensures forall x | x in r :: x == e || x in s
  {
    forall x | x in r ensures x == e || x in s {
      assert x in multiset(r);
    }
  }

  /** An event dated no later than every member of a sorted list can go in front. */
  lemma ConsSorted(h: EventRecord, s: seq<EventRecord>)
    requires SortedByDate(s)
    requires forall x | x in s :: h.date <= x.date
    ensures SortedByDate([h] + s)
  {
    var r := [h] + s;
    forall i, j | 0 <= i < j < |r| ensures r[i].date <= r[j].date {
      assert r[j] == s[j - 1];
      if i > 0 {
        assert r[i] == s[i - 1];
      }
    }
  }

  function InsertByDate(e: EventRecord, s: seq<EventRecord>): (r: seq<EventRecord>)
    requires SortedByDate(s)
    ensures SortedByDate(r)
    ensures multiset(r) == multiset(s) + multiset{e}
  {
    if s == [] || e.date <= s[0].date then
      [e] + s
    else
      var rest := InsertByDate(e, s[1..]);
      assert s == [s[0]] + s[1..];
      HeadIsEarliest(s);
      MembersOfInsertion(e, s[1..], rest);
      ConsSorted(s[0], rest);
      [s[0]] + rest
  }

  /** `Event.find().sort({ date: 1 })`: every event, in ascending date order.
      Events with equal dates may come in any order. */
  function ListEvents(events: seq<EventRecord>): (r: seq<EventRecord>)
    ensures SortedByDate(r)
    ensures multiset(r) == multiset(events)
  {
    if events == [] then []
    else
      assert events == [events[0]] + events[1..];
      InsertByDate(events[0], ListEvents(events[1..]))
  }

  // ---------- Lookups ----------

  predicate UniqueEventIds(events: seq<EventRecord>) {
    forall i, j :: 0 <= i < j < |events| ==> events[i].id != events[j].id
  }

  /** `Event.findById(id)` on a printed ObjectId. */
  function FindEvent(events: seq<EventRecord>, id: string): (r: Option<nat>)
    ensures r.Some? ==> r.value < |events| && events[r.value].id == id
    ensures r.None? <==> forall i :: 0 <= i < |events| ==> events[i].id != id
  {
    if events == [] then None
    else if events[0].id == id then Some(0)
    else match FindEvent(events[1..], id)
      case None => None
      case Some(i) => Some(i + 1)
  }

  /** `Event.findOne(query)`: the first event in store order the query matches. */
  function FirstMatch(events: seq<EventRecord>, matches: EventRecord -> bool): (r: Option<nat>)
    ensures r.Some? ==> r.value < |events| && matches(events[r.value])
    ensures r.Some? ==> forall i :: 0 <= i < r.value ==> !matches(events[i])
    ensures r.None? <==> forall i :: 0 <= i < |events| ==> !matches(events[i])
  {
    if events == [] then None
    else if matches(events[0]) then Some(0)
    else match FirstMatch(events[1..], matches)
      case None => None
      case Some(i) => Some(i + 1)
  }

  // ---------- GET /:id ----------

  datatype Lookup = Found(event: EventRecord) | NotFoundYet

  /** `GET /:id`: the id lookup runs only for a valid ObjectId; when it finds
      nothing the title/category query decides; 404 when both miss. */
  function GetEvent(param: string, events: seq<EventRecord>, matches: EventRecord -> bool): (r: Lookup)
    ensures IsValid(param) && FindEvent(events, Cast(param)).Some? ==>
      r == Found(events[FindEvent(events, Cast(param)).value])
    ensures !(IsValid(param) && FindEvent(events, Cast(param)).Some?) ==>
      (r.Found? <==> exists i :: 0 <= i < |events| && matches(events[i]))
    ensures !(IsValid(param) && FindEvent(events, Cast(param)).Some?) && r.Found? ==>
      r.event == events[FirstMatch(events, matches).value]
    ensures r.Found? ==> r.event in events
  {
    var byId := if IsValid(param) then FindEvent(events, Cast(param)) else None;
    if byId.Some? then Found(events[byId.value])
    else match FirstMatch(events, matches)
      case None => NotFoundYet
      case Some(i) => Found(events[i])
  }

  // ---------- GET /mine ----------

  /** `.populate('registeredEvents')`: each id replaced by its event, in list
      order; ids whose event no longer exists are dropped. */
  function Populate(ids: seq<string>, events: seq<EventRecord>): (r: seq<EventRecord>)
    ensures |r| <= |ids|
    ensures forall k :: 0 <= k < |r| ==> r[k] in events && r[k].id in ids
    ensures forall k :: 0 <= k < |ids| && FindEvent(events, ids[k]).Some? ==>
      events[FindEvent(events, ids[k]).value] in r
  {
    if ids == [] then []
    else match FindEvent(events, ids[0])
      case None => Populate(ids[1..], events)
      case Some(j) => [events[j]] + Populate(ids[1..], events)
  }

  /** One id populates to its event, or to nothing when no event has it. */
  lemma PopulateOne(id: string, events: seq<EventRecord>)
    ensures FindEvent(events, id).None? ==> Populate([id], events) == []
    ensures FindEvent(events, id).Some? ==> Populate([id], events) == [events[FindEvent(events, id).value]]
  {
    assert [id][1..] == [];
  }

  /** Populating a concatenation populates each part in turn: together with
      `PopulateOne` this fixes the order and the multiplicity of the result. */
  lemma {:induction false} PopulateAppend(a: seq<string>, b: seq<string>, events: seq<EventRecord>)
    ensures Populate(a + b, events) == Populate(a, events) + Populate(b, events)
  {
    if a == [] {
      assert a + b == b;
    } else {
      assert (a + b)[0] == a[0];
      assert (a + b)[1..] == a[1..] + b;
      PopulateAppend(a[1..], b, events);
    }
  }

  datatype MineAnswer = MineRefused(status: int, message: string) | MineEvents(registeredEvents: seq<EventRecord>)

  /** `GET /mine` */
  function Mine(session: Session, users: seq<User>, events: seq<EventRecord>): (r: MineAnswer)
    ensures session.user.None? ==> r == MineRefused(401, "unauthenticated")
    ensures session.user.Some? && FindById(users, session.user.value.id).None? ==>
      r == MineRefused(404, "user not found")
    ensures session.user.Some? && FindById(users, session.user.value.id).Some? ==>
      r == MineEvents(Populate(users[FindById(users, session.user.value.id).value].registeredEvents, events))
    ensures r.MineEvents? ==> session.user.Some? && exists i ::
      && 0 <= i < |users|
      && users[i].id == session.user.value.id
      && r.registeredEvents == Populate(users[i].registeredEvents, events)
  {
    if RequireAuth(session).Halt? then MineRefused(401, "unauthenticated")
    else match FindById(users, session.user.value.id)
      case None => MineRefused(404, "user not found")
      case Some(i) => MineEvents(Populate(users[i].registeredEvents, events))
  }

  // ---------- POST /, PUT /:id, DELETE /:id (no guard in the source) ----------

  datatype Written = Written(status: int, events: seq<EventRecord>)

  /** `POST /`: the body is stored when it validates; no principal is consulted. */
  function CreateEvent(events: seq<EventRecord>, body: EventBody, id: string, now: int): (r: Written)
    requires FindEvent(events, id).None?
    ensures r.status == 201 <==> NewEvent(body, id, now).Ok?
    ensures r.status == 201 ==> r.events == events + [NewEvent(body, id, now).value]
    ensures r.status != 201 ==> r == Written(500, events)
    ensures UniqueEventIds(events) ==> UniqueEventIds(r.events)
  {
    match NewEvent(body, id, now)
    case Err(_) => Written(500, events)
    case Ok(e) => Written(201, events + [e])
  }

  /** `PUT /:id` with validators on; no principal is consulted. */
  function UpdateEvent(events: seq<EventRecord>, param: string, body: EventBody): (r: Written)
    ensures !IsValid(param) || !UpdateValid(body) ==> r == Written(500, events)
    ensures IsValid(param) && UpdateValid(body) && FindEvent(events, Cast(param)).None? ==>
      r == Written(404, events)
    ensures IsValid(param) && UpdateValid(body) && FindEvent(events, Cast(param)).Some? ==>
      r.status == 200
    ensures r.status == 200 ==>
      && IsValid(param) && FindEvent(events, Cast(param)).Some?
      && r.events == events[FindEvent(events, Cast(param)).value := Updated(events[FindEvent(events, Cast(param)).value], body)]
    ensures r.status == 200 || r == Written(404, events) || r == Written(500, events)
  {
    if !IsValid(param) || !UpdateValid(body) then Written(500, events)
    else match FindEvent(events, Cast(param))
      case None => Written(404, events)
      case Some(j) => Written(200, events[j := Updated(events[j], body)])
  }

  /** `DELETE /:id`; no principal is consulted. */
  function DeleteEvent(events: seq<EventRecord>, param: string): (r: Written)
    ensures !IsValid(param) ==> r == Written(500, events)
    ensures IsValid(param) && FindEvent(events, Cast(param)).None? ==> r == Written(404, events)
    ensures IsValid(param) && FindEvent(events, Cast(param)).Some? ==> r.status == 200
    ensures r.status == 200 ==>
      && IsValid(param) && FindEvent(events, Cast(param)).Some?
      && r.events == events[..FindEvent(events, Cast(param)).value] + events[FindEvent(events, Cast(param)).value + 1..]
  {
    if !IsValid(param) then Written(500, events)
    else match FindEvent(events, Cast(param))
      case None => Written(404, events)
      case Some(j) => Written(200, events[..j] + events[j + 1..])
  }

  /** An update that passes validation never leaves a stored event without a title. */
  lemma UpdateKeepsTitle(events: seq<EventRecord>, param: string, body: EventBody)
    requires forall i :: 0 <= i < |events| ==> events[i].title != ""
    ensures var r := UpdateEvent(events, param, body);
      forall i :: 0 <= i < |r.events| ==> r.events[i].title != ""
  {
  }

  /** After a successful delete the id is gone from the store and from the listing,
      and every other event stays. */
  lemma {:induction false} DeletedEventGone(events: seq<EventRecord>, param: string)
    requires UniqueEventIds(events)
    requires DeleteEvent(events, param).status == 200
    ensures var r := DeleteEvent(events, param);
      && FindEvent(r.events, Cast(param)).None?
      && |r.events| == |events| - 1
      && (forall e :: e in events && e.id != Cast(param) ==> e in r.events)
      && (forall e :: e in ListEvents(r.events) ==> e.id != Cast(param))
  {
    var r := DeleteEvent(events, param);
    var j := FindEvent(events, Cast(param)).value;
    assert r.events == events[..j] + events[j + 1..];
    forall i | 0 <= i < |r.events| ensures r.events[i].id != Cast(param) {
      if i < j {
        assert r.events[i] == events[i];
      } else {
        assert r.events[i] == events[i + 1];
      }
    }
    forall e | e in events && e.id != Cast(param) ensures e in r.events {
      var k :| 0 <= k < |events| && events[k] == e;
      if k < j {
        assert r.events[k] == e;
      } else {
        assert k != j;
        assert r.events[k - 1] == e;
      }
    }
    forall e | e in ListEvents(r.events) ensures e.id != Cast(param) {
      assert e in multiset(ListEvents(r.events));
      assert e in r.events;
    }
  }

  // ---------- POST /:id/register ----------

  datatype RegisterAnswer =
    | RegisterRefused(status: int, message: string)
    | AlreadyRegistered
    | Registered(eventId: string)

  /** The step as the route writes it: `already` compares each stored id's
      printed form with the raw parameter, while `push` stores the parameter
      cast to an ObjectId. */
  function RegisterStepAsWritten(list: seq<string>, param: string): (r: seq<string>)
    requires IsValid(param)
    ensures param in list ==> r == list
    ensures param !in list ==> r == list + [Cast(param)]
  {
    if param in list then list else list + [Cast(param)]
  }

  /** A valid id in upper-case hexadecimal is never recognised as already
      registered: registering it twice stores the same ObjectId twice. */
  lemma UpperCaseIdRegisteredTwice()
    ensures var p := "ABCDEFABCDEFABCDEFABCDEF";
      && IsValid(p)
      && RegisterStepAsWritten(RegisterStepAsWritten([], p), p) == [Cast(p), Cast(p)]
      && !NoDuplicates(RegisterStepAsWritten(RegisterStepAsWritten([], p), p))
  {
    var p := "ABCDEFABCDEFABCDEFABCDEF";
    assert IsValid(p);
    var once := RegisterStepAsWritten([], p);
    assert once == [Cast(p)];
    assert Cast(p)[0] == 'a';
    assert p !in once;
    var twice := RegisterStepAsWritten(once, p);
    assert twice[0] == twice[1];
  }

  /** The step with both sides compared as ObjectIds. */
  function RegisterStep(list: seq<string>, param: string): seq<string>
    requires IsValid(param)
  {
    if Cast(param) in list then list else list + [Cast(param)]
  }

  /** For the printed ids clients send, the step as written and the corrected one agree. */
  lemma AsWrittenAgreesOnCanonicalIds(list: seq<string>, param: string)
    requires IsCanonical(param)
    ensures IsValid(param) && RegisterStepAsWritten(list, param) == RegisterStep(list, param)
  {
  }

  /** Registration only appends: earlier entries stay in place, at most the one
      id is added at the end, and afterwards the id is present. */
  lemma RegisterAppendsOnly(list: seq<string>, param: string)
    requires IsValid(param)
    ensures var r := RegisterStep(list, param);
      && Cast(param) in r
      && |list| <= |r| <= |list| + 1
      && r[..|list|] == list
      && (|r| == |list| + 1 <==> Cast(param) !in list)
      && (|r| == |list| + 1 ==> r[|list|] == Cast(param))
  {
  }

  lemma RegisterKeepsNoDuplicates(list: seq<string>, param: string)
    requires IsValid(param)
    requires NoDuplicates(list)
    ensures NoDuplicates(RegisterStep(list, param))
  {
  }

  /** Registering again changes nothing. */
  lemma RegisterIdempotent(list: seq<string>, param: string)
    requires IsValid(param)
    ensures RegisterStep(RegisterStep(list, param), param) == RegisterStep(list, param)
  {
  }

  /** The user collection, whose documents registration updates in place. */
  class UserCollection {
    var users: seq<User>

    ghost predicate Valid()
      reads this
    {
      WellFormed(users)
    }

    /** Every user's list is free of duplicates. */
    ghost predicate NoDuplicateRegistrations()
      reads this
    {
      forall i :: 0 <= i < |users| ==> NoDuplicates(users[i].registeredEvents)
    }

    constructor (users: seq<User>)
      requires WellFormed(users)
      ensures Valid() && this.users == users
    {
      this.users := users;
    }

    /** `POST /:id/register`, with the membership test as the route writes it.
        The event id is only checked for shape, never looked up among the events. */
    method Register(session: Session, param: string) returns (r: RegisterAnswer)
      requires Valid()
      modifies this
      ensures Valid()
      ensures session.user.None? ==> r == RegisterRefused(401, "unauthenticated") && users == old(users)
      ensures session.user.Some? && !IsValid(param) ==>
        r == RegisterRefused(404, "event not found") && users == old(users)
      ensures session.user.Some? && IsValid(param) && FindById(old(users), session.user.value.id).None? ==>
        r == RegisterRefused(404, "user not found") && users == old(users)
      ensures session.user.Some? && IsValid(param) && FindById(old(users), session.user.value.id).Some? ==>
        var i := FindById(old(users), session.user.value.id).value;
        && (r == AlreadyRegistered <==> param in old(users)[i].registeredEvents)
        && (r != AlreadyRegistered ==> r == Registered(param))
        && users == old(users)[i := old(users)[i].(registeredEvents := RegisterStepAsWritten(old(users)[i].registeredEvents, param))]
      ensures IsCanonical(param) && old(NoDuplicateRegistrations()) ==> NoDuplicateRegistrations()
    {
      if RequireAuth(session).Halt? {
        return RegisterRefused(401, "unauthenticated");
      }
      if !IsValid(param) {
        return RegisterRefused(404, "event not found");
      }
      var found := FindById(users, session.user.value.id);
      if found.None? {
        return RegisterRefused(404, "user not found");
      }
      var i := found.value;
      var user := users[i];
      if param in user.registeredEvents {
        return AlreadyRegistered;
      }
      if IsCanonical(param) {
        AsWrittenAgreesOnCanonicalIds(user.registeredEvents, param);
        if NoDuplicates(user.registeredEvents) {
          RegisterKeepsNoDuplicates(user.registeredEvents, param);
        }
      }
      user := user.(registeredEvents := user.registeredEvents + [Cast(param)]);
      users := users[i := user];
      r := Registered(param);
    }
  }
}
