# Campus Connect — a verified model of its core

Campus Connect is a campus events application. Its Express/Mongoose backend keeps
events and student accounts and handles session logins. Its React frontend lists
events, lets students register (with a per-user `localStorage` fallback when the
server refuses), shows "my events", and lets administrators edit and delete
events.

This Dafny project models:

- the backend's record schemas (`EventSchema`, `UserSchema`), the event routes
  (`EventRoutes`) and the auth routes (`AuthRoutes`, `Sessions`);
- the browser's shared state (`Docs`, `Browser`): parsed JSON documents,
  `localStorage` as a map of keys to slots, the `window` broadcasts as a signal
  log, and the requests sent as a request log;
- each page's logic as it is written: the event page's "is registered" set and
  its fallback save (`EventDetail`), the KODIKON page (`KodikonDetail`), the
  keyed "my events" merge (`MyEvents`), the student list (`EventsList`), the
  administrator list (`AdminEvents`), the category grouping of the home page and
  the dashboard (`Grouping`), the event card (`EventCard`), the edit form
  (`EditEvent`), and the application shell's session check and route guards
  (`AppRoutes`).

Pages and backend objects whose state changes in place are classes with
`modifies` frames. These are the login session, the user collection and the
page components. Pure logic is written as functions, with lemmas relating them.
The loops in the source are methods proved against a specification function:

- the `reduce` that groups events;
- the `forEach` that builds the registered set;
- the `Map` merge.

Where the code does something its pages and comments do not suggest:

- A locally saved entry that has only a title and a server entry with an id
  and the same title are different keys in the "my events" merge. Both are
  shown (`MyEvents.TitleOnlyEntryKeptApart`).
- `POST /events`, `PUT /events/:id` and `DELETE /events/:id` have no
  administrator guard. No principal is consulted in `EventRoutes.CreateEvent`,
  `UpdateEvent` or `DeleteEvent`.
- Registration checks only the shape of the event id, never that the event
  exists.
- `requireAdmin` loads the user as a schema document and tests `isAdmin`,
  which the User schema does not declare, so the test never sees the field and
  every user it finds is refused with 403 (`EventRoutes.RequireAdmin`). Of
  the modelled routes, only the image upload uses this guard.
- The events list shows Edit and Delete only when `user?.isAdmin` holds
  (frontend/src/pages/Events.jsx:73). The session user built at login has no
  `isAdmin` field, and `/events` renders only for users who are not
  administrators (frontend/src/App.jsx:89), so no user reaches the handler
  modelled by `EventsList.EventsPage.HandleDelete`.

Conventions:

- In browser documents, `""` stands for a JSON field that is absent, null or
  empty. The pages only test such fields for truthiness, compare them or copy
  them. Backend bodies use `Option`, because Mongoose defaults apply only to
  absent paths.
- Object ids are strings. A stored id is its 24 lower-case hexadecimal digits
  (`ObjectIds`).
- Password hashing and the regular-expression title query are passed in as
  predicates (`matches`).
- `Date.now()` is a `stamp` parameter.
- The outcome of each server request is a parameter: a reply datatype, or a
  `bool` for success.

## Model

| member | source | states |
|---|---|---|
| ObjectIds.Cast | backend/routes/eventRoutes.js:96-107 | a valid id (24 hex digits of either case) becomes an ObjectId whose printed form is canonical; an already canonical id is unchanged; each printed digit is the parameter's digit in lower case |
| ObjectIds.CastSameIff | backend/routes/eventRoutes.js:96-107 | two valid ids cast to the same ObjectId iff they spell the same digits up to the case of their letters |
| EventSchema.NewEvent | backend/models/Event.js:3-14 | a new event validates iff it has a non-empty title and a date; on failure the error names exactly the missing paths; on success `club` defaults to General, `category` to Other and `createdAt` to the current time, each only when the body does not carry it; the optional paths are copied without defaults; the record gets the fresh id |
| EventSchema.Updated | backend/routes/eventRoutes.js:118-123 | for every one of the ten schema paths, `createdAt` included: a path the body carries takes the body's value, any other keeps the stored one; the id never changes |
| EventSchema.EmptyUpdateChangesNothing | backend/routes/eventRoutes.js:120 | an update with an empty body leaves the event as it was |
| EventSchema.UpdatedIdempotent | backend/routes/eventRoutes.js:120 | applying the same update twice is applying it once |
| UserSchema.FindById | backend/routes/eventRoutes.js:100 | finds the user with that id, or reports that none has it |
| UserSchema.FindBySrn | backend/routes/auth.js:18 | finds the first user with that srn, or reports that none has it |
| UserSchema.CreateUser | backend/models/User.js:4-9 | a user is stored iff srn, name and password are non-empty and the srn is not taken; the collection keeps distinct ids and unique srns; the new user carries the given srn, name and password, no registrations and no fields beyond the schema |
| AuthRoutes.StoredHash | backend/routes/auth.js:22 | the password is checked against `passwordHash` when present, otherwise against `password` |
| AuthRoutes.StudentLogin | backend/routes/auth.js:9-40 | 400 iff the srn (from `srn` or `studentId`) or the password is missing; 401 iff no user has the srn or the password does not match its hash; every refusal is exactly the 400 "srn and password required" or the 401 "invalid credentials" reply; with both fields and a matching password the reply is the student session (id, srn, name or "", role student) of the user the srn lookup returns |
| AuthRoutes.FindAdmin | backend/routes/auth.js:53 | finds the administrator with that adminId, or reports that none has it |
| AuthRoutes.AdminLogin | backend/routes/auth.js:46-76 | 400 iff adminId or password is missing; 401 iff the administrator is unknown or the password does not match; every refusal is exactly the 400 or the 401 reply; with both fields and a matching password the reply is the admin session (id, adminId, name or "", role admin) of the administrator the lookup returns |
| AuthRoutes.SchemaUserChecksPassword | backend/routes/auth.js:22-25 | for a user saved through the schema, login succeeds exactly when the password matches the stored `password` |
| AuthRoutes.SessionState.Login | backend/routes/auth.js:27-34 | a successful student login stores the student principal in the session; a refused one leaves the session as it was |
| AuthRoutes.SessionState.LoginAdmin | backend/routes/auth.js:64-71 | a successful administrator login stores the admin principal; a refused one leaves the session as it was |
| AuthRoutes.SessionState.Me | backend/routes/auth.js:79-85 | `/me` answers the session principal, or null when there is none |
| AuthRoutes.SessionState.Logout | backend/routes/auth.js:92-97 | logout empties the session and answers 'logged out', or answers 500 'logout failed' and keeps it when the store fails |
| EventRoutes.RequireAuth | backend/routes/eventRoutes.js:11-14 | a request passes iff the session has a principal, otherwise 401 unauthenticated |
| EventRoutes.RequireAdmin | backend/routes/eventRoutes.js:16-27 | no request passes: 401 without a principal, 404 for an unknown user, and 403 for every user found, since the schema document exposes no `isAdmin` |
| EventRoutes.InsertByDate | backend/routes/eventRoutes.js:48 | inserting into a date-sorted list keeps it sorted and adds exactly the one event |
| EventRoutes.ListEvents | backend/routes/eventRoutes.js:46-54 | the list is sorted by ascending date and is a permutation of the stored events |
| EventRoutes.FindEvent | backend/routes/eventRoutes.js:159 | finds the event with that id, or reports that none has it |
| EventRoutes.FirstMatch | backend/routes/eventRoutes.js:163-169 | the first event the query matches, or none when no event matches |
| EventRoutes.GetEvent | backend/routes/eventRoutes.js:153-178 | a valid id that is stored finds that event; otherwise, a malformed id included, the title/category query decides and returns its first match, or not found |
| EventRoutes.Populate | backend/routes/eventRoutes.js:83 | each stored id that still names an event yields that event; nothing else is returned |
| EventRoutes.PopulateOne | backend/routes/eventRoutes.js:83 | one id yields its event, or nothing when no event has it |
| EventRoutes.PopulateAppend | backend/routes/eventRoutes.js:83 | populating a concatenation populates each part in turn, so the result follows the stored order, one event per id that names one |
| EventRoutes.Mine | backend/routes/eventRoutes.js:81-90 | 401 without a principal, 404 for an unknown user, and for a found user exactly that user's registrations populated |
| EventRoutes.CreateEvent | backend/routes/eventRoutes.js:57-66 | 201 and the new record appended iff the body validates, else 500 and no change; distinct ids are kept |
| EventRoutes.UpdateEvent | backend/routes/eventRoutes.js:118-132 | a malformed id or an empty title gives 500; an unknown id gives 404; a stored id with a valid body gives 200 with only that event updated |
| EventRoutes.DeleteEvent | backend/routes/eventRoutes.js:137-148 | a malformed id gives 500; an unknown id gives 404; a stored id gives 200 with exactly that event removed |
| EventRoutes.UpdateKeepsTitle | backend/routes/eventRoutes.js:118-123 | an update never leaves an event without a title |
| EventRoutes.DeletedEventGone | backend/routes/eventRoutes.js:137-143 | after a delete the id is in no stored or listed event, and every other event is kept |
| EventRoutes.RegisterStepAsWritten | backend/routes/eventRoutes.js:103-107 | the check compares the raw parameter and the push stores the cast id |
| EventRoutes.UpperCaseIdRegisteredTwice | backend/routes/eventRoutes.js:103-107 | registering an upper-case id twice stores the same ObjectId twice |
| EventRoutes.AsWrittenAgreesOnCanonicalIds | backend/routes/eventRoutes.js:103-107 | for canonical ids the step as written equals the corrected step |
| EventRoutes.RegisterAppendsOnly | backend/routes/eventRoutes.js:103-110 | registration keeps every earlier entry in place, appends the id at the end iff it was absent, and leaves it present |
| EventRoutes.RegisterKeepsNoDuplicates | backend/routes/eventRoutes.js:103-107 | a registration list without duplicates stays without duplicates |
| EventRoutes.RegisterIdempotent | backend/routes/eventRoutes.js:103-104 | registering the same id again changes nothing |
| EventRoutes.UserCollection.Register | backend/routes/eventRoutes.js:93-115 | 401 without a principal; 404 'event not found' for a malformed id before any user lookup; 404 'user not found'; 'already registered' iff the raw parameter is among the stored ids, else 'registered' with the cast id appended, as `RegisterStepAsWritten`; only that user changes; a list without duplicates stays so when the parameter is canonical |
| Docs.WithoutId | frontend/src/pages/Events.jsx:52 | the filtered list holds no event with the id, only events of the list, and every event without the id |
| Docs.WithoutIdDistributes | frontend/src/pages/AdminEvents.jsx:30 | filtering a split list filters each part, so the order of the kept events is preserved |
| Docs.WithoutIdUnchangedIff | frontend/src/pages/Events.jsx:52 | the filter leaves the list unchanged iff no event carries the id |
| Docs.WithoutIdIdempotent | frontend/src/pages/Events.jsx:52 | filtering twice is filtering once |
| Browser.LocalKeyScoping | frontend/src/pages/EventDetail.jsx:38 | two users share a fallback list iff they have the same id, or each is unresolved or literally "anon" |
| Browser.SaveLocally | frontend/src/pages/EventDetail.jsx:102-123 | unparsable text makes the save fail with no change; otherwise the snapshot is appended under the key iff no stored entry has its id or its title |
| Browser.SaveLocallyAppendOnly | frontend/src/pages/EventDetail.jsx:118-121 | a save changes no other key and keeps the stored entries as a prefix |
| Browser.SavedSnapshotIsFound | frontend/src/pages/EventDetail.jsx:118-121 | after a save that did not fail, an entry with the snapshot's id or title is stored |
| Browser.SaveLocallyIdempotent | frontend/src/pages/EventDetail.jsx:118-123 | saving the same snapshot twice stores it once |
| Browser.SaveLocallyKeepsNoClashes | frontend/src/pages/EventDetail.jsx:118-121 | a list where no two entries share an id or title keeps that property |
| EventDetail.ServerIdsMembers | frontend/src/pages/EventDetail.jsx:42-49 | the server part of the set is exactly the non-empty ids of the registered events |
| EventDetail.LocalIdsMembers | frontend/src/pages/EventDetail.jsx:51-62 | the local part is exactly the ids each local entry contributes: its own id, or the event's id (or `local-<title>`) on a title match |
| EventDetail.RegisteredOnLoadIff | frontend/src/pages/EventDetail.jsx:40-65 | the page shows the event as registered iff its id is among the server ids or the local contributions |
| EventDetail.RegisteredOnLoadServerEvent | frontend/src/pages/EventDetail.jsx:56-65 | for a stored event: registered iff a server entry or a local entry has its id, or a local entry without id has its title |
| EventDetail.CollectRegistered | frontend/src/pages/EventDetail.jsx:40-62 | the two loops build exactly the server ids plus the local contributions, and never the empty id |
| EventDetail.RealId | frontend/src/pages/EventDetail.jsx:83 | the registration id is the event's id, or `local-<stamp>` when it has none; never empty |
| EventDetail.Snapshot | frontend/src/pages/EventDetail.jsx:108-116 | the saved record carries the registration id, the title or 'Untitled Event', the registration link or else the Google form, and the other shown fields |
| EventDetail.FallbackSeenOnReload | frontend/src/pages/EventDetail.jsx:102-123 | after a fallback save that appended the snapshot, reloading the page shows the event as registered |
| EventDetail.SameTitleBlocksLocalRecord | frontend/src/pages/EventDetail.jsx:118 | a different event with an already saved title is not recorded, and is not shown as registered |
| EventDetail.EventDetailPage.Load | frontend/src/pages/EventDetail.jsx:26-75 | a failed load sets the error; a loaded event is registered iff its id is in the collected set |
| EventDetail.EventDetailPage.ConfirmRegistered | frontend/src/pages/EventDetail.jsx:77-131 | no event: only the error; already registered: nothing; otherwise a broadcast and a POST, then on success navigation to /my-events, else the fallback save, a second broadcast iff appended, and navigation |
| KodikonDetail.SelectKodikon | frontend/src/pages/KodikonDetail.jsx:23 | the first event whose lower-cased title contains 'kodikon', or none when no event matches |
| KodikonDetail.UpperCaseTitleSelected | frontend/src/pages/KodikonDetail.jsx:23 | the title test ignores case |
| KodikonDetail.MapDocIds | frontend/src/pages/KodikonDetail.jsx:42 | the server ids in order, one per registered event |
| KodikonDetail.CheckRegistered | frontend/src/pages/KodikonDetail.jsx:35-60 | no event: not registered; a server id match: registered; otherwise a local entry with the id or the title decides |
| KodikonDetail.DefaultKodikon | frontend/src/pages/KodikonDetail.jsx:63-71 | the built-in record has the id `local-kodikon-<stamp>`, a KODIKON title and the poster `/images/kodikon.jpeg` |
| KodikonDetail.RealId | frontend/src/pages/KodikonDetail.jsx:73 | the event's `_id`, else `local-<stamp>`; never empty |
| KodikonDetail.Snapshot | frontend/src/pages/KodikonDetail.jsx:98-106 | the saved record copies the fields without defaults |
| KodikonDetail.RealIdAgreesWithEventPage | frontend/src/pages/KodikonDetail.jsx:73 | the local id is the event page's, except for a record with a plain `id` and no `_id`, which gets `local-<stamp>` here and its `id` there |
| KodikonDetail.SnapshotAgreesWithEventPage | frontend/src/pages/KodikonDetail.jsx:98-106 | a record with a title and a registration link is saved exactly as the event page saves it; an untitled one is saved differently |
| KodikonDetail.FallbackSeenByCheck | frontend/src/pages/KodikonDetail.jsx:92-108 | after a fallback save that did not fail, the check finds the event registered |
| KodikonDetail.KodikonPage.Load | frontend/src/pages/KodikonDetail.jsx:15-33 | the selected event is kept when one matches; a failed or empty load keeps the old one |
| KodikonDetail.KodikonPage.Check | frontend/src/pages/KodikonDetail.jsx:35-60 | the flag is the check's answer; nothing else changes |
| KodikonDetail.KodikonPage.ConfirmRegistered | frontend/src/pages/KodikonDetail.jsx:62-111 | the POST goes out only for a loaded event with an id; success navigates; otherwise the fallback record is saved and the page navigates |
| MyEvents.KeyOrder | frontend/src/pages/MyEvents.jsx:41-46 | the keys have no duplicates and no empty key, and are no more than the entries |
| MyEvents.KeyOrderFirstSeen | frontend/src/pages/MyEvents.jsx:41-46 | every listed key occurs among the entries, and the keys come in the order of their first occurrences |
| MyEvents.KeyOrderMembers | frontend/src/pages/MyEvents.jsx:41-44 | a key is listed iff some entry has it and it is not empty |
| MyEvents.Latest | frontend/src/pages/MyEvents.jsx:38-44 | the map holds exactly the listed keys, each mapped to an entry with that key |
| MyEvents.Merged | frontend/src/pages/MyEvents.jsx:46 | one entry per listed key, at that key's position, taken from the key's map value |
| MyEvents.MergedFirstSeenOrder | frontend/src/pages/MyEvents.jsx:41-46 | the merged entries come in the order in which their keys first occur |
| MyEvents.MergeByKey | frontend/src/pages/MyEvents.jsx:38-46 | the `forEach` over the map and `Array.from` yield the merge |
| MyEvents.MergedKeysUnique | frontend/src/pages/MyEvents.jsx:41-46 | shown entries have distinct non-empty keys, every keyed entry's key is shown, and the list is no longer than the input |
| MyEvents.LatestIsLastOccurrence | frontend/src/pages/MyEvents.jsx:43 | the shown entry for a key is its last occurrence |
| MyEvents.KeyOrderPrefix | frontend/src/pages/MyEvents.jsx:41 | server keys keep their positions when the local list is appended |
| MyEvents.LaterListOverrides | frontend/src/pages/MyEvents.jsx:41-43 | a local entry overrides a server entry with the same key |
| MyEvents.TitleOnlyEntryKeptApart | frontend/src/pages/MyEvents.jsx:42 | a title-only local entry and a server entry with an id and the same title are both shown |
| MyEvents.SameIdShownOnce | frontend/src/pages/MyEvents.jsx:41-44 | a server entry and a local entry with the same id are shown once, as the local one |
| MyEvents.MyEventsPage.Load | frontend/src/pages/MyEvents.jsx:20-54 | success shows the merge of server and local entries; failure shows the local list and sets the error |
| EventsList.EventsPage.LoadEvents | frontend/src/pages/Events.jsx:14-25 | a loaded list replaces the events; a failed load empties them |
| EventsList.EventsPage.OnRegistered | frontend/src/pages/Events.jsx:35-38 | a notification without an id is ignored; any other adds the id and keeps the earlier ones, so a card shows the badge afterwards iff it did before or carries that id |
| EventsList.EventsPage.HandleDelete | frontend/src/pages/Events.jsx:48-59 | cancelled: nothing; confirmed: a DELETE request; success filters the id out and broadcasts `events:updated`; failure keeps the list |
| AdminEvents.Loaded | frontend/src/pages/AdminEvents.jsx:11-23 | a loaded list replaces the events; a failed load keeps them; loading ends either way |
| AdminEvents.HandleDelete | frontend/src/pages/AdminEvents.jsx:25-37 | a request iff confirmed; a broadcast and the filtered list iff it also succeeded; otherwise nothing changes |
| AdminEvents.DeleteRemovesExactly | frontend/src/pages/AdminEvents.jsx:29-31 | a successful delete removes exactly the events with the id and keeps the rest in order |
| AdminEvents.FailedFirstLoadIsEmpty | frontend/src/pages/AdminEvents.jsx:11-21 | a failed first load shows an empty list |
| Grouping.Filter | frontend/src/pages/EventsHome.jsx:30-35 | the events of one category, in order |
| Grouping.GroupIsFilter | frontend/src/pages/EventsHome.jsx:30-35 | each group holds its category's events in list order, and no group is empty |
| Grouping.GroupByCategory | frontend/src/pages/EventsHome.jsx:30-35 | the `reduce` with its in-place pushes builds the grouping |
| Grouping.FilterDistributes | frontend/src/pages/EventsHome.jsx:33 | grouping a concatenation groups each part in order |
| Grouping.EachEventInOneGroup | frontend/src/pages/Dashboard.jsx:13-18 | every event lands in the group of its own category and in no other |
| Grouping.Categories | frontend/src/pages/EventsHome.jsx:32 | categories in first-seen order, without duplicates |
| Grouping.CategoriesAreGroups | frontend/src/pages/EventsHome.jsx:32 | the categories listed are exactly the groups |
| Grouping.GroupSizesSum | frontend/src/pages/EventsHome.jsx:30-35 | the group sizes add up to the number of events |
| Grouping.CategorySections | frontend/src/pages/EventsHome.jsx:43-52 | at most one section per listed category, and every section is a `<cat>s` section of a listed category whose group is non-empty |
| Grouping.CategorySectionsComplete | frontend/src/pages/EventsHome.jsx:43-52 | every listed category with a non-empty group gets its `<cat>s` section |
| Grouping.CategorySectionsOne | frontend/src/pages/EventsHome.jsx:43-52 | a single listed category yields exactly its section when its group is non-empty and nothing otherwise |
| Grouping.CategorySectionsAppend | frontend/src/pages/EventsHome.jsx:43-52 | the sections of two lists of categories are the sections of the first followed by those of the second, so sections follow the listed order, one per entry |
| Grouping.DashboardAgreesWithHome | frontend/src/pages/Dashboard.jsx:27-46 | the dashboard's weaker test for the Other section renders the same sections as the home page |
| Grouping.UnlistedCategoryHidden | frontend/src/pages/EventsHome.jsx:37-62 | an event whose category is not Hackathon, Workshop or Other is in no section |
| Grouping.SectionOrderFixed | frontend/src/pages/EventsHome.jsx:37-62 | with all three groups present the sections are Hackathons, Workshops, Others, Other Events |
| Grouping.NoEventsNoSections | frontend/src/pages/EventsHome.jsx:64-67 | no events: no sections, and the empty message once loading ends |
| EventCard.PosterUrlAsWritten | frontend/src/components/EventCard.jsx:6-12 | no poster gives the placeholder; an http(s) URL is kept; anything else gets the `/images/` prefix |
| EventCard.KodikonPosterDoubled | frontend/src/components/EventCard.jsx:10-11 | the saved KODIKON record's poster resolves to `/images//images/kodikon.jpeg` |
| EventCard.AsWrittenNotIdempotent | frontend/src/components/EventCard.jsx:10-11 | for every non-empty poster that is not an http(s) URL, resolving the result again prefixes `/images/` a second time, so the result differs |
| EventCard.PosterUrl | frontend/src/components/EventCard.jsx:6-12 | the corrected resolution, which keeps a rooted path as it is |
| EventCard.PosterUrlIdempotent | frontend/src/components/EventCard.jsx:6-12 | a resolved poster resolves to itself |
| EventCard.PosterUrlResolved | frontend/src/components/EventCard.jsx:6-12 | every resolved poster is an absolute URL or a rooted path |
| EventCard.PosterUrlAgreesOnFileNames | frontend/src/components/EventCard.jsx:6-12 | for file names and URLs the correction changes nothing |
| EventCard.KodikonPosterKept | frontend/src/pages/KodikonDetail.jsx:69 | the saved KODIKON record shows `/images/kodikon.jpeg` |
| EventCard.KodikonCardPosterDoubled | frontend/src/components/EventCard.jsx:6-12 | the card of the saved KODIKON record shows `/images//images/kodikon.jpeg` |
| EventCard.RenderCard | frontend/src/components/EventCard.jsx:6-87 | badge iff registered; the poster resolved as the card writes it (`PosterUrlAsWritten`), placeholder iff no poster; details link to `/events/<_id or id>`; register link iff a registration link is set, pointing to it |
| EditEvent.DateInput | frontend/src/pages/EditEvent.jsx:31-33 | the date field is the first ten characters of the stored date, "" when absent |
| EditEvent.DateInputIdempotent | frontend/src/pages/EditEvent.jsx:31-33 | cutting a cut date changes nothing |
| EditEvent.FormOf | frontend/src/pages/EditEvent.jsx:28-37 | loaded fields are copied with "" for absent ones, the date input gets the stored date's first ten characters, and the category defaults to Other |
| EditEvent.Load | frontend/src/pages/EditEvent.jsx:24-47 | a loaded event fills the form; a load failure keeps the blank form and navigates to /admin/events |
| EditEvent.ImageChoice | frontend/src/pages/EditEvent.jsx:50-53 | no new file keeps the current poster; a new file gives its name |
| EditEvent.Payload | frontend/src/pages/EditEvent.jsx:62-70 | the payload carries the form fields verbatim, with the chosen poster |
| EditEvent.Submit | frontend/src/pages/EditEvent.jsx:56-82 | a PUT to the event with the payload; `events:updated` and navigation to /admin/events only after success |
| EditEvent.Applied | frontend/src/pages/EditEvent.jsx:72 | the server sets all seven payload fields and keeps the event's ids and Google form |
| EditEvent.SaveUnchangedRoundTrip | frontend/src/pages/EditEvent.jsx:28-72 | saving the loaded form without a file shows the same form on the next load, so the existing poster is kept |
| EditEvent.SaveUnchangedKeepsEvent | frontend/src/pages/EditEvent.jsx:28-72 | saving an unchanged form of an event with a category changes only its date, cut to the first ten characters; an event whose date is that short stays exactly as it was |
| EditEvent.SaveUnchangedFillsCategory | frontend/src/pages/EditEvent.jsx:36 | saving an unchanged form of an event without category stores Other |
| EditEvent.NewFileReplacesPoster | frontend/src/pages/EditEvent.jsx:52 | a chosen file replaces the poster and nothing else |
| AppRoutes.SessionChecked | frontend/src/App.jsx:27-38 | the check ends either way; a failure logs out; an answer sets the user it carries |
| AppRoutes.HandleLogin | frontend/src/App.jsx:40-42 | logging in sets the user and nothing else |
| AppRoutes.JoinSplit | frontend/src/App.jsx:75-167 | joining the path's pieces gives back the path |
| AppRoutes.SplitJoin | frontend/src/App.jsx:75-167 | splitting a join of slash-free pieces gives back the pieces |
| AppRoutes.MatchSegments | frontend/src/App.jsx:77-166 | a parameter never matches an empty segment; more than three segments match nothing |
| AppRoutes.Render | frontend/src/App.jsx:44-166 | nothing but the checking screen while the session is checked; public routes always render; student routes render iff a non-admin is logged in, else redirect to /login; admin routes iff an admin is logged in, else /admin/login; /profile needs a login; any other path goes to / |
| AppRoutes.NoUserReachesBoth | frontend/src/App.jsx:89-137 | no user reaches both a student-only and an admin-only page |
| AppRoutes.FailedCheckGuardsEverything | frontend/src/App.jsx:30-33 | after a failed session check every non-public route redirects |
| AppRoutes.MatchRoot | frontend/src/App.jsx:77 | `/` is the login selector route |
| AppRoutes.MatchLoginPath | frontend/src/App.jsx:78 | `/login` is the student login route |
| AppRoutes.MatchAdminLoginPath | frontend/src/App.jsx:79-82 | `/admin/login` is the administrator login route |
| AppRoutes.RedirectsLand | frontend/src/App.jsx:86-166 | every redirect lands on a page that renders, so the guards never loop |
| AppRoutes.DetailsLinkOpensEvent | frontend/src/App.jsx:96-105 | a card's details link opens the event page for that event |
| AppRoutes.AdminEventsPathMatches | frontend/src/App.jsx:134-143 | the page an administrator is sent to after an edit is the administrator list |
| AppRoutes.MyEventsPathMatches | frontend/src/App.jsx:116-125 | the page a student is sent to after registering is "my events" |
| AppRoutes.UpperCaseTrailingSlash | frontend/src/App.jsx:86-95 | an example: `/EVENTS/` reaches the events list |
| AppRoutes.TrailingSlashIgnored | frontend/src/App.jsx:86-166 | for every rooted path, a trailing slash does not change the route matched |
| AppRoutes.DoubledSlashUnmatched | frontend/src/App.jsx:166 | an example: `/events//x` matches nothing and redirects to / |
| AppRoutes.EmptySegmentUnmatched | frontend/src/App.jsx:86-166 | any segment list holding an empty segment (a doubled slash inside the path) matches no route |
| AppRoutes.LoginOpensPages | frontend/src/App.jsx:40-42 | after login a student reaches the student pages and an administrator the admin pages |

## Left out

- Database exceptions: the 500 answers that the routes' `catch` blocks give when the store throws are not modelled. Each modelled 500 comes from a validation or a cast.
- The image upload route (backend/routes/eventRoutes.js:68-78) and multer's file naming are file-system I/O.
- bcrypt: `matches(password, hash)` is a parameter, not an implementation.
- The regular expressions of `GET /:id` are a parameter predicate. A parameter that is not a valid regular expression (a 500) is not modelled.
- ObjectIds.Cast: accepts only the 24-hex-digit form; `isValid` also accepts any 12-character string, which is not modelled.
- NewEvent: a body that carries `_id` is not modelled; the record always gets the fresh id.
- Updated: a body that carries `_id` is not modelled; the stored id is always kept.
- In browser documents dates are strings (the backend's are millisecond timestamps). Parsing, time zones, ISO formatting and `toLocaleDateString` are not modelled.
- EditEvent.Applied: restates the server's update on the browser document rather than through `EventSchema.Updated`. The browser's dates are strings while the store's are timestamps, and the conversion between the two is not modelled.
- EditEvent.DateInput: assumes the server sends ISO dates; an unparsable date makes `toISOString` throw, and that path is not modelled.
- The `mounted` flags and the interleaving of asynchronous requests are not modelled. Each page operation is one atomic step over given replies.
- `toLowerCase` is modelled on ASCII letters only.
- Events.jsx:66-69 calls `id.toString()`, which throws for an event with neither `_id` nor `id`. The badge test in `ShowsRegistered` uses "" instead.
- The session middleware and server start-up (backend/server.js) are not part of this model. backend/models/Admin.js is not part of this model either; `Admin` holds only the fields auth.js reads.
- Pages that only copy inputs into a request (Login, AdminLogin, LoginSelector, Profile, NavBar, AdminAddEvent) are not modelled, and neither is JSX/CSS rendering beyond the event card's decisions and the section list.
- Grouping: the accumulator is a JavaScript object. A category named like an `Object.prototype` member (for example `constructor`) would make `acc[cat].push` fail. This is not modelled.
- The lists EventsHome and Dashboard load are not modelled; their loading flags are parameters of `ShowsEmptyMessage`.
- JSON `null` and absent fields are both "".
- Router parameters are not URI-decoded. A path that does not start with `/` matches nothing.
- When the "my events" server fetch fails, the page renders only the error text with a Retry button (MyEvents.jsx:64-69). The local list held in `mine` is not displayed. The model keeps the state, not the rendering.

## Findings

| source | as written | input that shows it | evidently intended | confidence | as-written member | corrected member |
|---|---|---|---|---|---|---|
| backend/routes/eventRoutes.js:103-107 | `already` compares each stored ObjectId's printed, lower-case form with the raw id parameter, while `push` stores the parameter cast to an ObjectId | registering `ABCDEFABCDEFABCDEFABCDEF` twice stores the same ObjectId twice, and the second call answers 'registered' | compare the cast id, so the second call answers 'already registered' and stores nothing | high; not executed | EventRoutes.RegisterStepAsWritten, EventRoutes.UpperCaseIdRegisteredTwice (used by EventRoutes.UserCollection.Register) | EventRoutes.RegisterStep (with RegisterKeepsNoDuplicates, RegisterIdempotent) |
| frontend/src/components/EventCard.jsx:7-12 | any poster that is not an http(s) URL gets `/images/` prefixed, rooted paths included | the KODIKON record saved locally carries `/images/kodikon.jpeg` (frontend/src/pages/KodikonDetail.jsx:69); "my events" renders it through the card as `/images//images/kodikon.jpeg` | use a rooted path as it is, so every poster resolves to itself | medium; not executed | EventCard.PosterUrlAsWritten, EventCard.KodikonPosterDoubled (used by EventCard.RenderCard, see EventCard.KodikonCardPosterDoubled) | EventCard.PosterUrl (with PosterUrlIdempotent, KodikonPosterKept) |
