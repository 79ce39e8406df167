/** The administrator's edit form (frontend/src/pages/EditEvent.jsx): the form
    filled from the stored event, the poster kept unless a new file is chosen,
    and the update request built from the form. */
module EditEvent {
  import opened Values
  import opened Docs
  import opened Browser

  /** The seven form fields, which are also the seven fields of the update payload. */
  datatype Form = Form(
    title: string,
    club: string,
    date: string,
    description: string,
    registrationLink: string,
    category: string,
    image: string)

  const DefaultCategory := "Other"
  const BlankForm := Form("", "", "", "", "", DefaultCategory, "")
  const AdminEventsPath := "/admin/events"

  /** The `YYYY-MM-DD` value of the date input: the first ten characters of the
      stored ISO date, or "" when there is none. */
  function DateInput(d: string): (r: string)
    ensures r == "" <==> d == ""
    ensures r <= d
    ensures |r| == if |d| < 10 then |d| else 10
  {
    if |d| <= 10 then d else d[..10]
  }

  lemma DateInputIdempotent(d: string)
    ensures DateInput(DateInput(d)) == DateInput(d)
  {
  }

  /** The form the page fills from a loaded event. */
  function FormOf(ev: Doc): (f: Form)
    ensures f.category != ""
    ensures ev.category != "" ==> f.category == ev.category
    ensures ev.category == "" ==> f.category == DefaultCategory
    ensures f.date == DateInput(ev.date)
    ensures f.title == ev.title && f.club == ev.club && f.description == ev.description
    ensures f.registrationLink == ev.registrationLink && f.image == ev.image
  {
    Form(ev.title, ev.club, DateInput(ev.date), ev.description,
      ev.registrationLink, Or(ev.category, DefaultCategory), ev.image)
  }

  /** The outcome of the load effect: the form shown, and where the page navigates. */
  datatype Loaded = Loaded(form: Form, navigateTo: Option<string>)

  function Load(reply: EventReply): (r: Loaded)
    ensures reply.EventFailed? ==> r == Loaded(BlankForm, Some(AdminEventsPath))
    ensures reply.EventOk? ==> r.navigateTo.None? && r.form == FormOf(reply.event)
  {
    match reply
    case EventOk(ev) => Loaded(FormOf(ev), None)
    case EventFailed => Loaded(BlankForm, Some(AdminEventsPath))
  }

  /** `uploadImage`: the chosen file's name, or the current poster when no file
      was chosen. */
  function ImageChoice(form: Form, file: Option<string>): (r: string)
    ensures file.None? ==> r == form.image
    ensures file.Some? ==> r == file.value
  {
    match file
    case Some(name) => name
    case None => Or(form.image, "")
  }

  /** The update payload: the form fields as they are, with the chosen poster. */
  function Payload(form: Form, file: Option<string>): (p: Form)
    ensures p.title == form.title && p.club == form.club && p.date == form.date
    ensures p.description == form.description && p.registrationLink == form.registrationLink
    ensures p.category == form.category
    ensures file.None? ==> p == form
    ensures file.Some? ==> p.image == file.value
  {
    form.(image := ImageChoice(form, file))
  }

  function UpdatePath(id: string): string {
    "/events/" + id
  }

  /** What `submit` does: the `PUT` it sends with its payload, whether
      `events:updated` is broadcast, and where the page navigates. `updated`
      says whether the request succeeded. */
  datatype Submitted = Submitted(request: Request, payload: Form, broadcast: bool, navigateTo: Option<string>)

  function Submit(id: string, form: Form, file: Option<string>, updated: bool): (r: Submitted)
    ensures r.request == Put(UpdatePath(id)) && r.payload == Payload(form, file)
    ensures r.broadcast <==> updated
    ensures r.navigateTo.Some? <==> updated
    ensures r.navigateTo.Some? ==> r.navigateTo.value == AdminEventsPath
  {
    Submitted(Put(UpdatePath(id)), Payload(form, file), updated,
      if updated then Some(AdminEventsPath) else None)
  }

  /** The event as the page next loads it after the server has set the seven
      payload fields; the fields the form does not carry keep their values. */
  function Applied(ev: Doc, p: Form): (r: Doc)
    ensures r.oid == ev.oid && r.id == ev.id && r.googleForm == ev.googleForm
    ensures r.title == p.title && r.image == p.image && r.category == p.category
    ensures r.club == p.club && r.date == p.date && r.description == p.description
    ensures r.registrationLink == p.registrationLink
  {
    ev.(title := p.title, club := p.club, date := p.date, description := p.description,
      registrationLink := p.registrationLink, category := p.category, image := p.image)
  }

  /** Saving the loaded form without choosing a file shows the same form on the
      next load: the existing poster is kept. */
  lemma SaveUnchangedRoundTrip(ev: Doc)
    ensures var f := FormOf(ev);
      FormOf(Applied(ev, Payload(f, None))) == f
  {
    DateInputIdempotent(ev.date);
  }

  /** Saving an unchanged form of an event that has a category changes only the
      date, which becomes its first ten characters (the `YYYY-MM-DD` part of a
      stored ISO date); an event whose date is already that short stays as it was. */
  lemma SaveUnchangedKeepsEvent(ev: Doc)
    requires ev.category != ""
    ensures Applied(ev, Payload(FormOf(ev), None)) == ev.(date := DateInput(ev.date))
    ensures |ev.date| <= 10 ==> Applied(ev, Payload(FormOf(ev), None)) == ev
  {
  }

  /** Saving an unchanged form of an event without a category stores the
      category `Other`. */
  lemma SaveUnchangedFillsCategory(ev: Doc)
    requires ev.category == ""
    ensures Applied(ev, Payload(FormOf(ev), None)).category == DefaultCategory
  {
  }

  /** A chosen file replaces the poster and nothing else. */
  lemma NewFileReplacesPoster(ev: Doc, form: Form, name: string)
    ensures var r := Applied(ev, Payload(form, Some(name)));
      r.image == name && r == Applied(ev, form).(image := name)
  {
  }
}
