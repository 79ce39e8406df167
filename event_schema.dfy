/** The Event document (backend/models/Event.js): its paths, the two required
    ones, and the defaults the schema fills in. */
module EventSchema {
  import opened Values

  /** The paths a request body may set; `None` is a path the body does not carry.
      Dates are timestamps in milliseconds. `createdAt` is a schema path like the
      others, so a body may set it too. */
  datatype EventBody = EventBody(
    title: Option<string>,
    club: Option<string>,
    description: Option<string>,
    date: Option<int>,
    deadline: Option<int>,
    registrationLink: Option<string>,
    googleForm: Option<string>,
    image: Option<string>,
    category: Option<string>,
    createdAt: Option<int>)

  const EmptyBody := EventBody(None, None, None, None, None, None, None, None, None, None)

  /** A stored event document. */
  datatype EventRecord = EventRecord(
    id: string,
    title: string,
    club: string,
    description: Option<string>,
    date: int,
    deadline: Option<int>,
    registrationLink: Option<string>,
    googleForm: Option<string>,
    image: Option<string>,
    category: string,
    createdAt: int)

  const DefaultClub := "General"
  const DefaultCategory := "Other"

  /** Mongoose's `required` check on a string path: an absent or empty string fails. */
  predicate RequiredString(v: Option<string>) {
    v.Some? && v.value != ""
  }

  /** The required paths a body leaves unset. */
  function MissingPaths(body: EventBody): set<string> {
    (if RequiredString(body.title) then {} else {"title"}) +
    (if body.date.Some? then {} else {"date"})
  }

  /** `new Event(body)` followed by validation: the record the store would keep
      under the fresh `id`, or the set of failing paths. `createdAt` defaults to
      `now` only when the body does not carry it. */
  function NewEvent(body: EventBody, id: string, now: int): (r: Result<EventRecord, set<string>>)
    ensures r.Ok? <==> RequiredString(body.title) && body.date.Some?
    ensures r.Err? ==> r.error != {} && r.error <= {"title", "date"}
    ensures r.Err? ==> ("title" in r.error <==> !RequiredString(body.title))
    ensures r.Err? ==> ("date" in r.error <==> body.date.None?)
    ensures r.Ok? ==> r.value.id == id
    ensures r.Ok? && body.createdAt.None? ==> r.value.createdAt == now
    ensures r.Ok? && body.createdAt.Some? ==> r.value.createdAt == body.createdAt.value
    ensures r.Ok? ==> r.value.title == body.title.value && r.value.date == body.date.value
    ensures r.Ok? && body.club.None? ==> r.value.club == DefaultClub
    ensures r.Ok? && body.category.None? ==> r.value.category == DefaultCategory
    ensures r.Ok? && body.club.Some? ==> r.value.club == body.club.value
    ensures r.Ok? && body.category.Some? ==> r.value.category == body.category.value
    ensures r.Ok? ==> r.value.description == body.description && r.value.deadline == body.deadline
    ensures r.Ok? ==> r.value.registrationLink == body.registrationLink && r.value.googleForm == body.googleForm
    ensures r.Ok? ==> r.value.image == body.image
  {
    if MissingPaths(body) != {} then
      Err(MissingPaths(body))
    else
      Ok(EventRecord(
        id, body.title.value, body.club.GetOr(DefaultClub), body.description,
        body.date.value, body.deadline, body.registrationLink, body.googleForm,
        body.image, body.category.GetOr(DefaultCategory), body.createdAt.GetOr(now)))
  }

  /** An update with validators on: only the paths the body carries are checked,
      and an empty title fails `required`. */
  predicate UpdateValid(body: EventBody) {
    body.title.None? || body.title.value != ""
  }

  /** A required path after `$set`: the carried value, or the stored one. */
  function Assigned<T>(carried: Option<T>, current: T): (v: T)
    ensures carried.None? ==> v == current
    ensures carried.Some? ==> v == carried.value
  {
    carried.GetOr(current)
  }

  /** An optional path after `$set`: the carried value, or the stored one. */
  function AssignedOptional<T>(carried: Option<T>, current: Option<T>): (v: Option<T>)
    ensures carried.None? ==> v == current
    ensures carried.Some? ==> v == carried
  {
    if carried.Some? then carried else current
  }

  /** The record after `$set`-ing every path the body carries; the others keep
      their stored values and no default is applied again. */
  function Updated(e: EventRecord, body: EventBody): (r: EventRecord)
    ensures r.id == e.id
    ensures body.title.None? ==> r.title == e.title
    ensures body.title.Some? ==> r.title == body.title.value
    ensures body.club.None? ==> r.club == e.club
    ensures body.club.Some? ==> r.club == body.club.value
    ensures body.description.None? ==> r.description == e.description
    ensures body.description.Some? ==> r.description == body.description
    ensures body.date.None? ==> r.date == e.date
    ensures body.date.Some? ==> r.date == body.date.value
    ensures body.deadline.None? ==> r.deadline == e.deadline
    ensures body.deadline.Some? ==> r.deadline == body.deadline
    ensures body.registrationLink.None? ==> r.registrationLink == e.registrationLink
    ensures body.registrationLink.Some? ==> r.registrationLink == body.registrationLink
    ensures body.googleForm.None? ==> r.googleForm == e.googleForm
    ensures body.googleForm.Some? ==> r.googleForm == body.googleForm
    ensures body.image.None? ==> r.image == e.image
    ensures body.image.Some? ==> r.image == body.image
    ensures body.category.None? ==> r.category == e.category
    ensures body.category.Some? ==> r.category == body.category.value
    ensures body.createdAt.None? ==> r.createdAt == e.createdAt
    ensures body.createdAt.Some? ==> r.createdAt == body.createdAt.value
  {
    EventRecord(
      e.id,
      Assigned(body.title, e.title),
      Assigned(body.club, e.club),
      AssignedOptional(body.description, e.description),
      Assigned(body.date, e.date),
      AssignedOptional(body.deadline, e.deadline),
      AssignedOptional(body.registrationLink, e.registrationLink),
      AssignedOptional(body.googleForm, e.googleForm),
      AssignedOptional(body.image, e.image),
      Assigned(body.category, e.category),
      Assigned(body.createdAt, e.createdAt))
  }

  /** An empty body changes nothing. */
  lemma EmptyUpdateChangesNothing(e: EventRecord)
    ensures Updated(e, EmptyBody) == e
  {
  }

  /** Applying the same update twice is applying it once. */
  lemma UpdatedIdempotent(e: EventRecord, body: EventBody)
    ensures Updated(Updated(e, body), body) == Updated(e, body)
  {
  }
}
