/**
 * The authentication blueprint: register, login, logout, profile update and
 * password change. Password hashing and checking are parameters (bcrypt is not modelled).
 */
module AuthRoutes {
  import opened Wrappers
  import opened Models
  import opened Gates
  import Seqs

  /** A JSON request body reduced to its string-valued fields. */
  type Json = map<string, string>

  /** `data.get(key)`. */
  function Get(data: Json, key: string): Option<string> {
    if key in data then Some(data[key]) else None
  }

  /** `data.get(key)` is truthy. */
  predicate Given(data: Json, key: string) {
    Truthy(Get(data, key))
  }

  predicate Clashes(u: UserRow, username: string, email: string) {
    u.username == username || u.email == email
  }

  // ---------------------------------------------------------------- register

  datatype RegisterReply = RegisterReply(status: int, users: seq<UserRow>)

  /** `POST /register`; `data` is `None` when the request has no JSON body. */
  function Register(users: seq<UserRow>, data: Option<Json>, newId: int, hash: string -> string): (r: RegisterReply)
    ensures r.status == 400 <==>
      data.None? || !Given(data.value, "username") || !Given(data.value, "email") || !Given(data.value, "password")
    ensures r.status == 409 <==> (r.status != 400 &&
      exists i :: 0 <= i < |users| && Clashes(users[i], data.value["username"], data.value["email"]))
    ensures r.status == 201 <==> r.status != 400 && r.status != 409
    ensures r.status != 201 ==> r.users == users
    ensures r.status == 201 ==>
      && |r.users| == |users| + 1
      && r.users[..|users|] == users
      && r.users[|users|] == NewUser(newId, data.value["username"], data.value["email"], hash(data.value["password"]))
  {
    if data.None? || !Given(data.value, "username") || !Given(data.value, "email") || !Given(data.value, "password") then
      RegisterReply(400, users)
    else
      var d := data.value;
      var username, email, password := d["username"], d["email"], d["password"];
      if Seqs.FindFirst(users, u => Clashes(u, username, email)).Some? then
        RegisterReply(409, users)
      else
        RegisterReply(201, users + [NewUser(newId, username, email, hash(password))])
  }

  // ------------------------------------------------------------------- login

  datatype LoginReply = LoginReply(status: int, session: ServerSession, user: Option<UserDict>)

  predicate Identifies(u: UserRow, identity: string) {
    u.username == identity || u.email == identity
  }

  /**
   * `POST /login`: the `email` field may hold a username or an e-mail; the first row
   * matching either is the only one whose password is checked. The query's `.first()`
   * has no ordering, so "first" here is table order: the rows as they were inserted.
   */
  function Login(users: seq<UserRow>, s: ServerSession, data: Option<Json>,
                 checkHash: (string, string) -> bool): (r: LoginReply)
    ensures r.status in {200, 400, 401}
    ensures r.status == 400 <==> data.None? || !Given(data.value, "email") || !Given(data.value, "password")
    ensures r.status == 200 <==>
      r.status != 400 &&
      exists i :: 0 <= i < |users| && Identifies(users[i], data.value["email"])
        && (forall j :: 0 <= j < i ==> !Identifies(users[j], data.value["email"]))
        && checkHash(users[i].passwordHash, data.value["password"])
    ensures r.status == 200 ==>
      exists i ::
        && 0 <= i < |users| && Identifies(users[i], data.value["email"])
        && (forall j :: 0 <= j < i ==> !Identifies(users[j], data.value["email"]))
        && r.session == s.(userId := Some(users[i].id), isAdmin := Some(users[i].isAdmin))
        && r.user == Some(UserToDict(users[i]))
    ensures r.status != 200 ==> r.session == s && r.user.None?
  {
    if data.None? || !Given(data.value, "email") || !Given(data.value, "password") then
      LoginReply(400, s, None)
    else
      var identity, password := data.value["email"], data.value["password"];
      match Seqs.FindFirst(users, u => Identifies(u, identity))
      case Some(i) =>
        if checkHash(users[i].passwordHash, password) then
          LoginReply(200, s.(userId := Some(users[i].id), isAdmin := Some(users[i].isAdmin)), Some(UserToDict(users[i])))
        else
          LoginReply(401, s, None)
      case None => LoginReply(401, s, None)
  }

  /**
   * A freshly registered user logs in with the same password, by username or by e-mail,
   * provided no earlier row is identified by that name: registration refuses a taken
   * username or e-mail, but not a username equal to another user's e-mail.
   */
  lemma RegisteredUserCanLogIn(users: seq<UserRow>, data: Json, newId: int, hash: string -> string,
                               s: ServerSession, identity: string)
    requires Register(users, Some(data), newId, hash).status == 201
    requires identity == data["username"] || identity == data["email"]
    requires forall j :: 0 <= j < |users| ==> !Identifies(users[j], identity)
    ensures var after := Register(users, Some(data), newId, hash).users;
      var r := Login(after, s, Some(map["email" := identity, "password" := data["password"]]), (h, p) => h == hash(p));
      && r.status == 200
      && r.session.userId == Some(newId)
      && LoginRequired(r.session).Proceed?
      && r.user == Some(UserToDict(NewUser(newId, data["username"], data["email"], hash(data["password"]))))
  {
    var after := Register(users, Some(data), newId, hash).users;
    var creds := map["email" := identity, "password" := data["password"]];
    var i := |users|;
    assert Identifies(after[i], identity);
    assert forall j :: 0 <= j < i ==> after[j] == users[j];
    var r := Login(after, s, Some(creds), (h, p) => h == hash(p));
    assert r.status == 200;
    var k :| && 0 <= k < |after| && Identifies(after[k], identity)
             && (forall j :: 0 <= j < k ==> !Identifies(after[j], identity))
             && r.session == s.(userId := Some(after[k].id), isAdmin := Some(after[k].isAdmin))
             && r.user == Some(UserToDict(after[k]));
    assert k == i;
  }

  /**
   * Registration accepts a username equal to another user's e-mail. When the database
   * returns the matching rows in table order, the older user's row answers a login by
   * that name, and the new account gets 401.
   */
  lemma UsernameShadowedByEmail(hash: string -> string)
    requires hash("pw1") != hash("pw2")
    ensures var users := [UserRow(1, "ann", "bob", hash("pw1"), false, None)];
      var data := map["username" := "bob", "email" := "b@x", "password" := "pw2"];
      var reg := Register(users, Some(data), 2, hash);
      && reg.status == 201
      && Login(reg.users, EmptySession, Some(map["email" := "bob", "password" := "pw2"]), (h, p) => h == hash(p)).status == 401
  {
    var users := [UserRow(1, "ann", "bob", hash("pw1"), false, None)];
    var data := map["username" := "bob", "email" := "b@x", "password" := "pw2"];
    assert !Clashes(users[0], "bob", "b@x");
    var reg := Register(users, Some(data), 2, hash);
    assert reg.status == 201;
    var creds := map["email" := "bob", "password" := "pw2"];
    var r := Login(reg.users, EmptySession, Some(creds), (h, p) => h == hash(p));
    assert Identifies(reg.users[0], "bob");
    assert r.status != 200;
  }

  /** `POST /logout`: the whole session is cleared, whatever it held. */
  function Logout(s: ServerSession): (r: ServerSession)
    ensures r.userId.None? && r.isAdmin.None? && r.others == map[]
    ensures LoginRequired(r) == Deny(401)
  {
    EmptySession
  }

  // --------------------------------------------------------- profile update

  datatype UsersReply = UsersReply(status: int, users: seq<UserRow>)

  /** `new != current && filter_by(column=new).first()`: `None` never matches a non-null column. */
  predicate UsernameConflict(users: seq<UserRow>, current: UserRow, wanted: Option<string>) {
    wanted.Some? && wanted.value != current.username &&
    exists j :: 0 <= j < |users| && users[j].username == wanted.value
  }

  predicate EmailConflict(users: seq<UserRow>, current: UserRow, wanted: Option<string>) {
    wanted.Some? && wanted.value != current.email &&
    exists j :: 0 <= j < |users| && users[j].email == wanted.value
  }

  /**
   * `PUT /user/profile` for the logged-in user `uid`. A missing `username` or `email`
   * passes the conflict checks but violates the NOT NULL columns at commit: 500.
   */
  function UpdateProfile(users: seq<UserRow>, uid: int, data: Json): (r: UsersReply)
    ensures r.status in {200, 404, 409, 500}
    ensures r.status == 404 <==> UserIndex(users, uid).None?
    ensures r.status == 409 <==> (UserIndex(users, uid).Some? &&
      var u := users[UserIndex(users, uid).value];
      UsernameConflict(users, u, Get(data, "username")) || EmailConflict(users, u, Get(data, "email")))
    ensures r.status == 500 <==> r.status !in {404, 409} && ("username" !in data || "email" !in data)
    ensures r.status != 200 ==> r.users == users
    ensures r.status == 200 ==>
      var i := UserIndex(users, uid).value;
      r.users == users[i := users[i].(username := data["username"], email := data["email"],
                                      phoneNumber := Get(data, "phoneNumber"))]
  {
    match UserIndex(users, uid)
    case None => UsersReply(404, users)
    case Some(i) =>
      var u := users[i];
      var newUsername, newEmail := Get(data, "username"), Get(data, "email");
      if UsernameConflict(users, u, newUsername) then UsersReply(409, users)
      else if EmailConflict(users, u, newEmail) then UsersReply(409, users)
      else if newUsername.None? || newEmail.None? then UsersReply(500, users)
      else UsersReply(200, users[i := u.(username := newUsername.value, email := newEmail.value,
                                         phoneNumber := Get(data, "phoneNumber"))])
  }

  /** Usernames and e-mails are unique columns, and so are ids. */
  predicate UniqueColumns(users: seq<UserRow>) {
    forall i, j :: 0 <= i < j < |users| ==>
      users[i].id != users[j].id && users[i].username != users[j].username && users[i].email != users[j].email
  }

  /** Under the unique constraints a 409 means exactly: another user holds the wanted name or e-mail. */
  lemma ProfileConflictIsAnotherUser(users: seq<UserRow>, uid: int, data: Json)
    requires UniqueColumns(users)
    requires UserIndex(users, uid).Some?
    ensures UpdateProfile(users, uid, data).status == 409 <==>
      exists j :: 0 <= j < |users| && users[j].id != uid &&
        (("username" in data && users[j].username == data["username"])
         || ("email" in data && users[j].email == data["email"]))
  {
    var i := UserIndex(users, uid).value;
    var u := users[i];
    if UpdateProfile(users, uid, data).status == 409 {
      if UsernameConflict(users, u, Get(data, "username")) {
        var j :| 0 <= j < |users| && users[j].username == data["username"];
        assert users[j].id != uid;
      } else {
        var j :| 0 <= j < |users| && users[j].email == data["email"];
        assert users[j].id != uid;
      }
    }
  }

  // -------------------------------------------------------- change password

  datatype PasswordOutcome = MissingFields | WrongCurrent | SameAsCurrent | Mismatch | Changed(newHash: string)

  function PasswordStatus(o: PasswordOutcome): int {
    match o
    case MissingFields => 400
    case WrongCurrent => 403
    case SameAsCurrent => 400
    case Mismatch => 400
    case Changed(_) => 200
  }

  /** `POST /user/change-password` for user row `u`: the first failing check decides. */
  function ChangePassword(u: UserRow, data: Json, checkHash: (string, string) -> bool,
                          hash: string -> string): (o: PasswordOutcome)
    ensures o == MissingFields <==>
      !Given(data, "currentPassword") || !Given(data, "newPassword") || !Given(data, "confirmPassword")
    ensures o == WrongCurrent <==> o != MissingFields && !checkHash(u.passwordHash, data["currentPassword"])
    ensures o == SameAsCurrent <==> o !in {MissingFields, WrongCurrent} && checkHash(u.passwordHash, data["newPassword"])
    ensures o == Mismatch <==>
      o !in {MissingFields, WrongCurrent, SameAsCurrent} && data["newPassword"] != data["confirmPassword"]
    ensures o.Changed? ==> o.newHash == hash(data["newPassword"])
  {
    if !Given(data, "currentPassword") || !Given(data, "newPassword") || !Given(data, "confirmPassword") then
      MissingFields
    else if !checkHash(u.passwordHash, data["currentPassword"]) then WrongCurrent
    else if checkHash(u.passwordHash, data["newPassword"]) then SameAsCurrent
    else if data["newPassword"] != data["confirmPassword"] then Mismatch
    else Changed(hash(data["newPassword"]))
  }

  /** The route: 404 for a vanished user, else the checks above; only a success writes the hash. */
  function ChangePasswordRoute(users: seq<UserRow>, uid: int, data: Json,
                               checkHash: (string, string) -> bool, hash: string -> string): (r: UsersReply)
    ensures r.status == 404 <==> UserIndex(users, uid).None?
    ensures UserIndex(users, uid).Some? ==>
      r.status == PasswordStatus(ChangePassword(users[UserIndex(users, uid).value], data, checkHash, hash))
    ensures r.status == 200 <==>
      UserIndex(users, uid).Some? && ChangePassword(users[UserIndex(users, uid).value], data, checkHash, hash).Changed?
    ensures r.status != 200 ==> r.users == users
    ensures r.status == 200 ==>
      var i := UserIndex(users, uid).value;
      && "newPassword" in data
      && r.users == users[i := users[i].(passwordHash := ChangePassword(users[i], data, checkHash, hash).newHash)]
      && r.users[i].passwordHash == hash(data["newPassword"])
  {
    match UserIndex(users, uid)
    case None => UsersReply(404, users)
    case Some(i) =>
      match ChangePassword(users[i], data, checkHash, hash)
      case Changed(h) => UsersReply(200, users[i := users[i].(passwordHash := h)])
      case o => UsersReply(PasswordStatus(o), users)
  }

  /** With an exact-match checker, re-using the current password is refused with 400. */
  lemma SamePasswordRefused(u: UserRow, data: Json, hash: string -> string)
    requires Given(data, "currentPassword") && Given(data, "newPassword") && Given(data, "confirmPassword")
    requires data["newPassword"] == data["currentPassword"]
    requires u.passwordHash == hash(data["currentPassword"])
    ensures var o := ChangePassword(u, data, (h, p) => h == hash(p), hash);
            o == SameAsCurrent && PasswordStatus(o) == 400
  {
  }
}
