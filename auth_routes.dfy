/** The principal a server-side session holds once someone has logged in. */
module Sessions {
  import opened Values

  const StudentRole := "student"
  const AdminRole := "admin"

  /** `req.session.user`: a student session carries `srn`, an administrator
      session carries `adminId`; the other one is "". */
  datatype SessionUser = SessionUser(id: string, srn: string, adminId: string, name: string, role: string)

  /** What a request sees of its session: a principal, or none. */
  datatype Session = Session(user: Option<SessionUser>)
}

/** The login, administrator login, who-am-I and logout routes
    (backend/routes/auth.js). Password hashing is left abstract: `matches(p, h)`
    stands for `bcrypt.compare(p, h)`. */
module AuthRoutes {
  import opened Values
  import opened UserSchema
  import opened Sessions

  /** The login body; "" stands for an absent field. */
  datatype LoginBody = LoginBody(srn: string, studentId: string, password: string)
  datatype AdminLoginBody = AdminLoginBody(adminId: string, password: string)

  /** An administrator account: the fields auth.js reads of it
      (backend/models/Admin.js is not part of this model). */
  datatype Admin = Admin(id: string, adminId: string, name: string, password: string)

  datatype LoginOutcome = Refused(status: int, message: string) | LoggedIn(user: SessionUser)
  datatype Reply = Reply(status: int, message: string)

  const MissingStudentFields := "srn and password required"
  const BadCredentials := "invalid credentials"
  const MissingAdminFields := "adminId and password required"
  const BadAdminCredentials := "invalid admin credentials"

  /** The frontend may send the number as `srn` or as `studentId`. */
  function LoginSrn(body: LoginBody): string {
    Or(body.srn, body.studentId)
  }

  /** The hash the password is checked against: `passwordHash`, else `password`, else "". */
  function StoredHash(u: User): (h: string)
    ensures u.passwordHash != "" ==> h == u.passwordHash
    ensures u.passwordHash == "" ==> h == u.password
  {
    Or(Or(u.passwordHash, u.password), "")
  }

  /** `POST /auth/login` */
  function StudentLogin(body: LoginBody, users: seq<User>, matches: (string, string) -> bool): (r: LoginOutcome)
    ensures r == Refused(400, MissingStudentFields) <==> LoginSrn(body) == "" || body.password == ""
    ensures r.Refused? ==> r == Refused(400, MissingStudentFields) || r == Refused(401, BadCredentials)
    ensures r == Refused(401, BadCredentials) <==>
      && LoginSrn(body) != "" && body.password != ""
      && (|| FindBySrn(users, LoginSrn(body)).None?
          || !matches(body.password, StoredHash(users[FindBySrn(users, LoginSrn(body)).value])))
    ensures LoginSrn(body) != "" && body.password != "" && FindBySrn(users, LoginSrn(body)).Some? ==>
      var u := users[FindBySrn(users, LoginSrn(body)).value];
      matches(body.password, StoredHash(u)) ==> r == LoggedIn(SessionUser(u.id, u.srn, "", Or(u.name, ""), StudentRole))
    ensures r.LoggedIn? ==> exists i ::
      && 0 <= i < |users|
      && users[i].srn == LoginSrn(body)
      && matches(body.password, StoredHash(users[i]))
      && r.user == SessionUser(users[i].id, users[i].srn, "", Or(users[i].name, ""), StudentRole)
  {
    var srn := LoginSrn(body);
    if srn == "" || body.password == "" then Refused(400, MissingStudentFields)
    else match FindBySrn(users, srn)
      case None => Refused(401, BadCredentials)
      case Some(i) =>
        if !matches(body.password, StoredHash(users[i])) then Refused(401, BadCredentials)
        else LoggedIn(SessionUser(users[i].id, users[i].srn, "", Or(users[i].name, ""), StudentRole))
  }

  /** `Admin.findOne({ adminId })` */
  function FindAdmin(admins: seq<Admin>, adminId: string): (r: Option<nat>)
    ensures r.Some? ==> r.value < |admins| && admins[r.value].adminId == adminId
    ensures r.None? <==> forall i :: 0 <= i < |admins| ==> admins[i].adminId != adminId
  {
    if admins == [] then None
    else if admins[0].adminId == adminId then Some(0)
    else match FindAdmin(admins[1..], adminId)
      case None => None
      case Some(i) => Some(i + 1)
  }

  /** `POST /auth/admin-login` */
  function AdminLogin(body: AdminLoginBody, admins: seq<Admin>, matches: (string, string) -> bool): (r: LoginOutcome)
    ensures r == Refused(400, MissingAdminFields) <==> body.adminId == "" || body.password == ""
    ensures r.Refused? ==> r == Refused(400, MissingAdminFields) || r == Refused(401, BadAdminCredentials)
    ensures r == Refused(401, BadAdminCredentials) <==>
      && body.adminId != "" && body.password != ""
      && (|| FindAdmin(admins, body.adminId).None?
          || !matches(body.password, admins[FindAdmin(admins, body.adminId).value].password))
    ensures body.adminId != "" && body.password != "" && FindAdmin(admins, body.adminId).Some? ==>
      var a := admins[FindAdmin(admins, body.adminId).value];
      matches(body.password, a.password) ==> r == LoggedIn(SessionUser(a.id, "", a.adminId, Or(a.name, ""), AdminRole))
    ensures r.LoggedIn? ==> exists i ::
      && 0 <= i < |admins|
      && admins[i].adminId == body.adminId
      && matches(body.password, admins[i].password)
      && r.user == SessionUser(admins[i].id, "", admins[i].adminId, Or(admins[i].name, ""), AdminRole)
  {
    if body.adminId == "" || body.password == "" then Refused(400, MissingAdminFields)
    else match FindAdmin(admins, body.adminId)
      case None => Refused(401, BadAdminCredentials)
      case Some(i) =>
        if !matches(body.password, admins[i].password) then Refused(401, BadAdminCredentials)
        else LoggedIn(SessionUser(admins[i].id, "", admins[i].adminId, Or(admins[i].name, ""), AdminRole))
  }

  /** A student who exists only through the schema logs in with the password
      stored under `password`: the undeclared `passwordHash` plays no part. */
  lemma SchemaUserChecksPassword(body: LoginBody, users: seq<User>, matches: (string, string) -> bool, i: nat)
    requires WellFormed(users) && i < |users| && SchemaOnly(users[i])
    requires body.password != "" && LoginSrn(body) == users[i].srn && users[i].srn != ""
    ensures StudentLogin(body, users, matches).LoggedIn? <==> matches(body.password, users[i].password)
  {
    var j := FindBySrn(users, users[i].srn);
    assert j.Some?;
    assert j.value == i;
  }

  /** The server-side session, which the login routes write and logout destroys. */
  class SessionState {
    var user: Option<SessionUser>

    constructor ()
      ensures user.None?
    {
      user := None;
    }

    /** `POST /auth/login`: the session changes only on success. */
    method Login(body: LoginBody, users: seq<User>, matches: (string, string) -> bool) returns (r: LoginOutcome)
      modifies this
      ensures r == StudentLogin(body, users, matches)
      ensures r.LoggedIn? ==> user == Some(r.user) && user.value.role == StudentRole
      ensures r.Refused? ==> user == old(user)
    {
      r := StudentLogin(body, users, matches);
      if r.LoggedIn? {
        user := Some(r.user);
      }
    }

    /** `POST /auth/admin-login`: the session changes only on success. */
    method LoginAdmin(body: AdminLoginBody, admins: seq<Admin>, matches: (string, string) -> bool) returns (r: LoginOutcome)
      modifies this
      ensures r == AdminLogin(body, admins, matches)
      ensures r.LoggedIn? ==> user == Some(r.user) && user.value.role == AdminRole
      ensures r.Refused? ==> user == old(user)
    {
      r := AdminLogin(body, admins, matches);
      if r.LoggedIn? {
        user := Some(r.user);
      }
    }

    /** `GET /auth/me`: `{ user: null }` without a session user, never an error. */
    method Me() returns (r: Option<SessionUser>)
      ensures r == user
    {
      r := user;
    }

    /** `POST /auth/logout`: destroys the session. When the session store reports
        an error the answer is 500 and the stored session stays as it was. */
    method Logout(storeFails: bool) returns (r: Reply)
      modifies this
      ensures storeFails ==> r == Reply(500, "logout failed") && user == old(user)
      ensures !storeFails ==> r == Reply(200, "logged out") && user.None?
    {
      if storeFails {
        r := Reply(500, "logout failed");
      } else {
        user := None;
        r := Reply(200, "logged out");
      }
    }
  }
}
