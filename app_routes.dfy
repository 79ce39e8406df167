/** The application shell (frontend/src/App.jsx): the session check on start,
    and the route table with its guards. Paths are matched the way the router
    does it: split at `/`, static segments compared without regard to case,
    a parameter matching one non-empty segment, and trailing slashes ignored. */
module AppRoutes {
  import opened Values
  import opened Docs
  import Browser
  import EventCard
  import EditEvent

  /** `user` is `None` both while it is still undefined and once it is null;
      `checking` tells the two apart. */
  datatype AppState = AppState(checking: bool, user: Option<MeUser>)

  const Initial := AppState(true, None)

  /** The start-up `GET /auth/me`: a failure logs out, an answer without a user
      leaves `user` undefined, and either way the check is over. */
  function SessionChecked(reply: MeReply): (r: AppState)
    ensures !r.checking
    ensures reply.MeFailed? ==> r.user.None?
    ensures reply.MeAnswered? ==> r.user == reply.user
  {
    match reply
    case MeFailed => AppState(false, None)
    case MeAnswered(u) => AppState(false, u)
  }

  /** `handleLogin`, and the navigation bar's `setUser`. */
  function HandleLogin(s: AppState, u: Option<MeUser>): (r: AppState)
    ensures r.checking == s.checking && r.user == u
  {
    s.(user := u)
  }

  /** `!!user` */
  predicate IsLoggedIn(s: AppState) {
    s.user.Some?
  }

  predicate IsStudent(s: AppState) {
    IsLoggedIn(s) && s.user.value.role != "admin"
  }

  predicate IsAdmin(s: AppState) {
    IsLoggedIn(s) && s.user.value.role == "admin"
  }

  // Paths

  /** `s.split("/")` */
  function Split(s: string): (r: seq<string>)
    ensures |r| >= 1
    ensures forall k :: 0 <= k < |r| ==> '/' !in r[k]
  {
    if s == [] then [""]
    else
      var rest := Split(s[1..]);
      if s[0] == '/' then [""] + rest else [[s[0]] + rest[0]] + rest[1..]
  }

  /** `parts.join("/")` */
  function Join(parts: seq<string>): string
    requires |parts| >= 1
  {
    if |parts| == 1 then parts[0] else parts[0] + "/" + Join(parts[1..])
  }

  lemma {:induction false} JoinCons(c: char, parts: seq<string>)
    requires |parts| >= 1
    ensures Join([[c] + parts[0]] + parts[1..]) == [c] + Join(parts)
  {
    var q := [[c] + parts[0]] + parts[1..];
    assert q[1..] == parts[1..];
  }

  /** Joining the pieces gives back the path. */
  lemma {:induction false} JoinSplit(s: string)
    ensures Join(Split(s)) == s
  {
    if s != [] {
      var rest := Split(s[1..]);
      JoinSplit(s[1..]);
      if s[0] == '/' {
        assert ([""] + rest)[1..] == rest;
        assert s == "/" + s[1..];
      } else {
        JoinCons(s[0], rest);
        assert s == [s[0]] + s[1..];
      }
    }
  }

  lemma {:induction false} SplitPlain(a: string)
    requires '/' !in a
    ensures Split(a) == [a]
  {
    if a != [] {
      SplitPlain(a[1..]);
      assert a == [a[0]] + a[1..];
    }
  }

  lemma {:induction false} SplitAtSlash(a: string, b: string)
    requires '/' !in a
    ensures Split(a + "/" + b) == [a] + Split(b)
  {
    if a == [] {
      assert a + "/" + b == "/" + b;
      assert ("/" + b)[1..] == b;
    } else {
      SplitAtSlash(a[1..], b);
      assert (a + "/" + b)[1..] == a[1..] + "/" + b;
      assert (a + "/" + b)[0] == a[0];
      assert [a[0]] + a[1..] == a;
    }
  }

  /** Splitting a join of slash-free pieces gives back the pieces. */
  lemma {:induction false} SplitJoin(parts: seq<string>)
    requires |parts| >= 1
    requires forall k :: 0 <= k < |parts| ==> '/' !in parts[k]
    ensures Split(Join(parts)) == parts
  {
    if |parts| == 1 {
      SplitPlain(parts[0]);
    } else {
      SplitJoin(parts[1..]);
      SplitAtSlash(parts[0], Join(parts[1..]));
      assert [parts[0]] + parts[1..] == parts;
    }
  }

  /** The pieces without the empty ones a trailing run of slashes leaves. */
  function TrimTrailing(p: seq<string>): (r: seq<string>)
    ensures r <= p
    ensures r == [] || r[|r| - 1] != ""
    ensures forall k :: |r| <= k < |p| ==> p[k] == ""
  {
    if p != [] && p[|p| - 1] == "" then TrimTrailing(p[..|p| - 1]) else p
  }

  /** The segments of a rooted path. */
  function Segments(path: string): Option<seq<string>> {
    if path != [] && path[0] == '/' then Some(TrimTrailing(Split(path)[1..])) else None
  }

  /** A rooted path of one non-empty piece has that piece as its one segment. */
  lemma OneSegment(a: string)
    requires a != "" && '/' !in a
    ensures Segments("/" + a) == Some([a])
  {
    assert "" + "/" + a == "/" + a;
    SplitAtSlash("", a);
    SplitPlain(a);
    assert Split("/" + a)[1..] == [a];
  }

  /** A rooted path of two non-empty pieces has those pieces as its segments. */
  lemma TwoSegments(a: string, b: string)
    requires a != "" && b != "" && '/' !in a && '/' !in b
    ensures Segments("/" + a + "/" + b) == Some([a, b])
  {
    SplitPlain(b);
    SplitAtSlash(a, b);
    assert "" + "/" + (a + "/" + b) == "/" + a + "/" + b;
    SplitAtSlash("", a + "/" + b);
    assert Split("/" + a + "/" + b)[1..] == [a, b];
  }

  /** A static segment matches without regard to case. */
  predicate Static(seg: string, name: string) {
    Lower(seg) == name
  }

  lemma LowerKeepsLowerCase(s: string)
    requires forall i :: 0 <= i < |s| ==> !('A' <= s[i] <= 'Z')
    ensures Lower(s) == s
  {
  }

  /** The static segment names the paths below use are already lower case. */
  lemma RouteNamesLowerCase()
    ensures Static("login", "login") && Static("admin", "admin")
    ensures Static("events", "events") && Static("my-events", "my-events")
  {
    LowerKeepsLowerCase("login");
    LowerKeepsLowerCase("admin");
    LowerKeepsLowerCase("events");
    LowerKeepsLowerCase("my-events");
  }

  datatype Route =
    | Root
    | LoginRoute
    | AdminLoginRoute
    | KodikonRoute
    | EventsRoute
    | EventRoute(id: string)
    | CategoryEventRoute(category: string, id: string)
    | MyEventsRoute
    | ProfileRoute
    | AdminEventsRoute
    | AdminAddRoute
    | AdminEditRoute(id: string)
    | Unmatched

  /** The route the segments select; a parameter never matches an empty segment. */
  function MatchSegments(seg: seq<string>): (r: Route)
    ensures r.EventRoute? ==> r.id != ""
    ensures r.CategoryEventRoute? ==> r.category != "" && r.id != ""
    ensures r.AdminEditRoute? ==> r.id != ""
    ensures |seg| > 3 ==> r == Unmatched
  {
    if |seg| == 0 then Root
    else if |seg| == 1 then
      if Static(seg[0], "login") then LoginRoute
      else if Static(seg[0], "kodikon") then KodikonRoute
      else if Static(seg[0], "events") then EventsRoute
      else if Static(seg[0], "my-events") then MyEventsRoute
      else if Static(seg[0], "profile") then ProfileRoute
      else Unmatched
    else if |seg| == 2 then
      if Static(seg[0], "admin") && Static(seg[1], "login") then AdminLoginRoute
      else if Static(seg[0], "admin") && Static(seg[1], "events") then AdminEventsRoute
      else if Static(seg[0], "admin") && Static(seg[1], "add-event") then AdminAddRoute
      else if Static(seg[0], "events") && seg[1] != "" then EventRoute(seg[1])
      else Unmatched
    else if |seg| == 3 then
      if Static(seg[0], "events") && seg[1] != "" && seg[2] != "" then CategoryEventRoute(seg[1], seg[2])
      else if Static(seg[0], "admin") && Static(seg[1], "edit") && seg[2] != "" then AdminEditRoute(seg[2])
      else Unmatched
    else Unmatched
  }

  function Match(path: string): Route {
    match Segments(path)
    case Some(seg) => MatchSegments(seg)
    case None => Unmatched
  }

  // Rendering

  datatype Page =
    | LoginSelectorPage | LoginPage | AdminLoginPage | KodikonPage
    | EventsPage | EventDetailPage | MyEventsPage | ProfilePage
    | AdminEventsPage | AdminAddEventPage | EditEventPage

  datatype Screen = CheckingSession | Show(page: Page) | RedirectTo(path: string)

  predicate IsPublic(r: Route) {
    r.Root? || r.LoginRoute? || r.AdminLoginRoute? || r.KodikonRoute?
  }

  predicate StudentOnly(r: Route) {
    r.EventsRoute? || r.EventRoute? || r.CategoryEventRoute? || r.MyEventsRoute?
  }

  predicate AdminOnly(r: Route) {
    r.AdminEventsRoute? || r.AdminAddRoute? || r.AdminEditRoute?
  }

  const LoginPath := "/login"
  const AdminLoginPath := "/admin/login"
  const RootPath := "/"

  /** What the shell renders for a route. */
  function Render(s: AppState, route: Route): (r: Screen)
    ensures s.checking <==> r == CheckingSession
    ensures !s.checking && IsPublic(route) ==> r.Show?
    ensures !s.checking && StudentOnly(route) ==>
      (r.Show? <==> IsStudent(s)) && (!r.Show? ==> r == RedirectTo(LoginPath))
    ensures !s.checking && AdminOnly(route) ==>
      (r.Show? <==> IsAdmin(s)) && (!r.Show? ==> r == RedirectTo(AdminLoginPath))
    ensures !s.checking && route == ProfileRoute ==>
      (r.Show? <==> IsLoggedIn(s)) && (!r.Show? ==> r == RedirectTo(LoginPath))
    ensures !s.checking && route == Unmatched ==> r == RedirectTo(RootPath)
    ensures r.Show? && (route.EventRoute? || route.CategoryEventRoute?) ==> r.page == EventDetailPage
  {
    if s.checking then CheckingSession
    else
      match route
      case Root => Show(LoginSelectorPage)
      case LoginRoute => Show(LoginPage)
      case AdminLoginRoute => Show(AdminLoginPage)
      case KodikonRoute => Show(KodikonPage)
      case EventsRoute => if IsStudent(s) then Show(EventsPage) else RedirectTo(LoginPath)
      case EventRoute(_) => if IsStudent(s) then Show(EventDetailPage) else RedirectTo(LoginPath)
      case CategoryEventRoute(_, _) => if IsStudent(s) then Show(EventDetailPage) else RedirectTo(LoginPath)
      case MyEventsRoute => if IsStudent(s) then Show(MyEventsPage) else RedirectTo(LoginPath)
      case ProfileRoute => if IsLoggedIn(s) then Show(ProfilePage) else RedirectTo(LoginPath)
      case AdminEventsRoute => if IsAdmin(s) then Show(AdminEventsPage) else RedirectTo(AdminLoginPath)
      case AdminAddRoute => if IsAdmin(s) then Show(AdminAddEventPage) else RedirectTo(AdminLoginPath)
      case AdminEditRoute(_) => if IsAdmin(s) then Show(EditEventPage) else RedirectTo(AdminLoginPath)
      case Unmatched => RedirectTo(RootPath)
  }

  /** No user reaches both a student-only page and an administrator-only page. */
  lemma NoUserReachesBoth(s: AppState, a: Route, b: Route)
    requires StudentOnly(a) && AdminOnly(b)
    ensures !(Render(s, a).Show? && Render(s, b).Show?)
  {
  }

  /** A failed session check leaves every guarded page behind a redirect. */
  lemma FailedCheckGuardsEverything(route: Route)
    requires !IsPublic(route)
    ensures Render(SessionChecked(MeFailed), route).RedirectTo?
  {
  }

  lemma MatchRoot()
    ensures Match(RootPath) == Root
  {
    assert Split(RootPath) == ["", ""] by {
      SplitJoin(["", ""]);
      assert Join(["", ""]) == RootPath;
    }
    assert Split(RootPath)[1..] == [""];
  }

  lemma MatchLoginPath()
    ensures Match(LoginPath) == LoginRoute
  {
    assert Segments(LoginPath) == Some(["login"]) by {
      assert '/' !in "login";
      OneSegment("login");
      assert LoginPath == "/" + "login";
    }
    RouteNamesLowerCase();
  }

  lemma MatchAdminLoginPath()
    ensures Match(AdminLoginPath) == AdminLoginRoute
  {
    assert Segments(AdminLoginPath) == Some(["admin", "login"]) by {
      assert '/' !in "admin" && '/' !in "login";
      TwoSegments("admin", "login");
      assert AdminLoginPath == "/" + "admin" + "/" + "login";
    }
    RouteNamesLowerCase();
  }

  /** Every redirect lands on a page that renders: the guards never loop. */
  lemma RedirectsLand(s: AppState, route: Route)
    requires Render(s, route).RedirectTo?
    ensures Render(s, Match(Render(s, route).path)).Show?
  {
    MatchRoot();
    MatchLoginPath();
    MatchAdminLoginPath();
  }

  /** A card's details link opens the event page on that event. */
  lemma DetailsLinkOpensEvent(ev: Doc)
    requires DocId(ev) != "" && '/' !in DocId(ev)
    ensures Match(EventCard.DetailsLink(ev)) == EventRoute(DocId(ev))
  {
    var id := DocId(ev);
    assert Segments(EventCard.DetailsLink(ev)) == Some(["events", id]) by {
      assert '/' !in "events";
      TwoSegments("events", id);
      assert EventCard.DetailsLink(ev) == "/" + "events" + "/" + id;
    }
    RouteNamesLowerCase();
  }

  /** After a save the administrator is sent to the administrator's list. */
  lemma AdminEventsPathMatches()
    ensures Match(EditEvent.AdminEventsPath) == AdminEventsRoute
  {
    assert Segments(EditEvent.AdminEventsPath) == Some(["admin", "events"]) by {
      assert '/' !in "admin" && '/' !in "events";
      TwoSegments("admin", "events");
      assert EditEvent.AdminEventsPath == "/" + "admin" + "/" + "events";
    }
    RouteNamesLowerCase();
  }

  /** After registering, a student is sent to the list of their events. */
  lemma MyEventsPathMatches()
    ensures Match(Browser.MyEventsPath) == MyEventsRoute
  {
    assert Segments(Browser.MyEventsPath) == Some(["my-events"]) by {
      assert '/' !in "my-events";
      OneSegment("my-events");
      assert Browser.MyEventsPath == "/" + "my-events";
    }
    RouteNamesLowerCase();
  }

  /** A segment left empty by a doubled slash matches no route, whatever the others are. */
  lemma EmptySegmentUnmatched(seg: seq<string>)
    requires "" in seg
    ensures MatchSegments(seg) == Unmatched
  {
    assert Lower("") == "";
    assert forall name: string :: name != "" ==> !Static("", name);
  }

  /** Appending a piece to the pieces appends it after a slash to the joined path. */
  lemma {:induction false} JoinAppend(parts: seq<string>, x: string)
    requires |parts| >= 1
    ensures Join(parts + [x]) == Join(parts) + "/" + x
  {
    if |parts| > 1 {
      assert (parts + [x])[1..] == parts[1..] + [x];
      JoinAppend(parts[1..], x);
    }
  }

  /** A trailing slash does not change the route a rooted path matches. */
  lemma TrailingSlashIgnored(path: string)
    requires path != [] && path[0] == '/'
    ensures Match(path + "/") == Match(path)
  {
    var parts := Split(path);
    JoinSplit(path);
    JoinAppend(parts, "");
    assert Join(parts + [""]) == path + "/";
    SplitJoin(parts + [""]);
    var seg := parts[1..];
    assert Split(path + "/")[1..] == seg + [""];
    assert (seg + [""])[..|seg|] == seg;
    assert TrimTrailing(seg + [""]) == TrimTrailing(seg);
  }

  /** Static segments ignore case and a trailing slash: `/EVENTS/` is the list. */
  lemma UpperCaseTrailingSlash()
    ensures Match("/EVENTS/") == EventsRoute
  {
    SplitJoin(["", "EVENTS", ""]);
    assert Join(["", "EVENTS", ""]) == "/EVENTS/";
    assert Split("/EVENTS/")[1..] == ["EVENTS", ""];
    assert TrimTrailing(["EVENTS", ""]) == ["EVENTS"] by {
      assert ["EVENTS", ""][..1] == ["EVENTS"];
    }
    assert Lower("EVENTS") == "events";
  }

  /** A doubled slash inside a path matches nothing and sends the user home. */
  lemma DoubledSlashUnmatched(s: AppState)
    requires !s.checking
    ensures Match("/events//x") == Unmatched
    ensures Render(s, Match("/events//x")) == RedirectTo(RootPath)
  {
    SplitJoin(["", "events", "", "x"]);
    assert Join(["", "events", "", "x"]) == "/events//x";
    assert Split("/events//x")[1..] == ["events", "", "x"];
    assert Lower("") == "";
  }

  /** A student who logs in reaches the student pages, an administrator the
      administrator pages. */
  lemma LoginOpensPages(s: AppState, u: MeUser)
    requires !s.checking
    ensures u.role != "admin" ==> Render(HandleLogin(s, Some(u)), MyEventsRoute) == Show(MyEventsPage)
    ensures u.role == "admin" ==> Render(HandleLogin(s, Some(u)), AdminEventsRoute) == Show(AdminEventsPage)
  {
  }
}
