/** The User document (backend/models/User.js) and the user collection: three
    required string paths, a unique index on `srn`, and the ordered list of
    registered events. */
module UserSchema {
  import opened Values

  /** A stored user. `srn`, `name`, `password` and `registeredEvents` (printed
      ObjectIds of events, in push order) are the schema's paths. The login route
      reads the stored document without the schema (`lean`) and so also sees
      `passwordHash`, which the schema does not declare: a document carries it
      only when something other than the schema wrote it, and `""` stands for its
      absence. */
  datatype User = User(
    id: string,
    srn: string,
    name: string,
    password: string,
    registeredEvents: seq<string>,
    passwordHash: string)

  /** A document holding nothing beyond the schema's paths. */
  predicate SchemaOnly(u: User) {
    u.passwordHash == ""
  }

  predicate NoDuplicates(s: seq<string>) {
    forall i, j :: 0 <= i < j < |s| ==> s[i] != s[j]
  }

  /** Distinct `_id`s, and the unique index on `srn`. */
  predicate WellFormed(users: seq<User>) {
    && (forall i, j :: 0 <= i < j < |users| ==> users[i].id != users[j].id)
    && (forall i, j :: 0 <= i < j < |users| ==> users[i].srn != users[j].srn)
  }

  /** `User.findById(id)`: the position of the user with that `_id`. */
  function FindById(users: seq<User>, id: string): (r: Option<nat>)
    ensures r.Some? ==> r.value < |users| && users[r.value].id == id
    ensures r.None? <==> forall i :: 0 <= i < |users| ==> users[i].id != id
  {
    if users == [] then None
    else if users[0].id == id then Some(0)
    else match FindById(users[1..], id)
      case None => None
      case Some(i) => Some(i + 1)
  }

  /** `User.findOne({ srn })`: the position of the first user with that srn. */
  function FindBySrn(users: seq<User>, srn: string): (r: Option<nat>)
    ensures r.Some? ==> r.value < |users| && users[r.value].srn == srn
    ensures r.Some? ==> forall i :: 0 <= i < r.value ==> users[i].srn != srn
    ensures r.None? <==> forall i :: 0 <= i < |users| ==> users[i].srn != srn
  {
    if users == [] then None
    else if users[0].srn == srn then Some(0)
    else match FindBySrn(users[1..], srn)
      case None => None
      case Some(i) => Some(i + 1)
  }

  datatype CreateError = Invalid(missing: set<string>) | DuplicateSrn

  function MissingPaths(srn: string, name: string, password: string): set<string> {
    (if srn == "" then {"srn"} else {}) +
    (if name == "" then {"name"} else {}) +
    (if password == "" then {"password"} else {})
  }

  /** `new User({ srn, name, password }).save()` under the fresh `_id` `id`:
      validation first, then the unique index. */
  function CreateUser(users: seq<User>, id: string, srn: string, name: string, password: string)
    : (r: Result<seq<User>, CreateError>)
    requires WellFormed(users)
    requires forall i :: 0 <= i < |users| ==> users[i].id != id
    ensures r.Ok? <==> srn != "" && name != "" && password != "" && FindBySrn(users, srn).None?
    ensures r.Err? && r.error.Invalid? <==> srn == "" || name == "" || password == ""
    ensures r.Ok? ==> WellFormed(r.value)
    ensures r.Ok? ==> |r.value| == |users| + 1 && r.value[..|users|] == users
    ensures r.Ok? ==> var u := r.value[|users|];
      && u.id == id && u.srn == srn && u.name == name && u.password == password
      && u.registeredEvents == [] && SchemaOnly(u)
  {
    if MissingPaths(srn, name, password) != {} then
      assert "srn" in MissingPaths(srn, name, password) || "name" in MissingPaths(srn, name, password)
        || "password" in MissingPaths(srn, name, password);
      Err(Invalid(MissingPaths(srn, name, password)))
    else if FindBySrn(users, srn).Some? then Err(DuplicateSrn)
    else Ok(users + [User(id, srn, name, password, [], "")])
  }
}
