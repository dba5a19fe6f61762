/** The account endpoints: registration, login and logout. Registration
    validates in a fixed order, saves the user and then a user-role row, with
    no transaction around the two. Login answers with the tokens and the
    user's role names and sets the token cookies; logout deletes them. */
module AccountViews {

  import opened Common
  import opened Json
  import opened AccountModels
  import AdminPermission
  import TokenSerializer

  /** A JSON reply: an HTTP status and a body. */
  datatype Reply = Reply(status: int, body: Object)

  function ErrorReply(message: string): (r: Reply)
    ensures r.status == 400 && r.body == map["error" := JStr(message)]
  {
    Reply(400, map["error" := JStr(message)])
  }

  // ---------------------------------------------------------------------
  // Registration

  /** The fields `RegisterView.post` reads from `request.data`; `None` is a
      missing key. */
  datatype RegisterData = RegisterData(
    username: Option<string>,
    email: Option<string>,
    fullName: Option<string>,
    telephone: Option<string>,
    password: Option<string>,
    roleId: Option<int>)

  /** `all([username, email, full_name, password])`. */
  predicate AllFilled(d: RegisterData)
  {
    Filled(d.username) && Filled(d.email) && Filled(d.fullName) && Filled(d.password)
  }

  /** The error message the checks produce, in the order the view runs them:
      the required fields, then the username, then the email. */
  function RegisterCheck(users: map<int, User>, d: RegisterData): (r: Option<string>)
    ensures r == Some("All fields are required") <==> !AllFilled(d)
    ensures r == Some("Username already exists") <==> AllFilled(d) && UsernameTaken(users, d.username.value)
    ensures r == Some("Email already exists") <==>
      AllFilled(d) && !UsernameTaken(users, d.username.value) && EmailTaken(users, d.email.value)
    ensures r == None <==>
      AllFilled(d) && !UsernameTaken(users, d.username.value) && !EmailTaken(users, d.email.value)
  {
    if !AllFilled(d) then Some("All fields are required")
    else if UsernameTaken(users, d.username.value) then Some("Username already exists")
    else if EmailTaken(users, d.email.value) then Some("Email already exists")
    else None
  }

  /** `role_id`, replaced by 3 (the "User" role) when missing or falsy. */
  function DefaultRoleId(roleId: Option<int>): (r: int)
    ensures roleId.Some? && roleId.value != 0 ==> r == roleId.value
    ensures roleId.None? || roleId.value == 0 ==> r == 3
  {
    if roleId.Some? && roleId.value != 0 then roleId.value else 3
  }

  /** The user row registration saves: the given fields, `telephone`
      defaulting to `''`, the password as `hash` renders it, no `role` and
      the clock's reading as `created_at`. */
  function NewUser(d: RegisterData, hash: string -> string, now: Time): (u: User)
    requires AllFilled(d)
    ensures u.username == d.username.value && u.email == d.email.value && u.fullName == d.fullName.value
    ensures u.telephone == (if d.telephone.Some? then d.telephone.value else "")
    ensures u.password == hash(d.password.value)
    ensures u.role == None && u.deletedAt == None && u.createdAt == now
  {
    User(if d.telephone.Some? then d.telephone.value else "", d.email.value, d.fullName.value,
         d.username.value, None, None, None, hash(d.password.value), now, None, None)
  }

  /** The 201 reply: the message and the saved user's key and fields. */
  function CreatedReply(id: int, u: User): (r: Reply)
    ensures r.status == 201 && r.body.Keys == {"message", "user"}
    ensures r.body["message"] == JStr("User registered successfully")
    ensures r.body["user"] == JObj(map["id" := JNum(id), "username" := JStr(u.username),
                                       "email" := JStr(u.email), "full_name" := JStr(u.fullName)])
  {
    Reply(201, map["message" := JStr("User registered successfully"),
                   "user" := JObj(map["id" := JNum(id), "username" := JStr(u.username),
                                      "email" := JStr(u.email), "full_name" := JStr(u.fullName)])])
  }

  datatype Outcome = Responded(reply: Reply) | Raised(error: DbError)

  /** `RegisterView.post`. `hash` stands for `make_password`; `userTime` and
      `linkTime` are the two readings of `timezone.now()`. A missing role
      fails the user-role insert after the user is saved, and the user
      stays. */
  method Register(users: UserTable, roles: RoleTable, links: UserRoleTable, d: RegisterData,
                  hash: string -> string, userTime: Time, linkTime: Time) returns (out: Outcome)
    requires users.Valid() && links.Valid()
    requires forall i :: 0 <= i < |links.rows| ==> links.rows[i].user in users.rows
    modifies users, links
    ensures users.Valid() && links.Valid()
    ensures RegisterCheck(old(users.rows), d).Some? ==>
      && out == Responded(ErrorReply(RegisterCheck(old(users.rows), d).value))
      && users.rows == old(users.rows) && users.nextId == old(users.nextId)
      && links.rows == old(links.rows) && links.nextId == old(links.nextId)
    ensures RegisterCheck(old(users.rows), d).None? ==>
      && old(users.nextId) !in old(users.rows)
      && users.rows == old(users.rows)[old(users.nextId) := NewUser(d, hash, userTime)]
      && users.nextId == old(users.nextId) + 1
    ensures RegisterCheck(old(users.rows), d).None? && DefaultRoleId(d.roleId) in roles.rows ==>
      && links.rows == old(links.rows) + [UserRole(old(links.nextId), old(users.nextId), DefaultRoleId(d.roleId),
                                                   Some(linkTime), None, None)]
      && out == Responded(CreatedReply(old(users.nextId), NewUser(d, hash, userTime)))
    ensures RegisterCheck(old(users.rows), d).None? && DefaultRoleId(d.roleId) !in roles.rows ==>
      && out == Raised(IntegrityError)
      && links.rows == old(links.rows) && links.nextId == old(links.nextId)
  {
    var check := RegisterCheck(users.rows, d);
    if check.Some? {
      return Responded(ErrorReply(check.value));
    }
    var user := NewUser(d, hash, userTime);
    var saved := users.Insert(user);
    assert saved.Success?;
    var roleId := DefaultRoleId(d.roleId);
    var linked := links.Insert(saved.value, roleId, Some(linkTime), users.rows, roles.rows);
    if !linked {
      return Raised(IntegrityError);
    }
    out := Responded(CreatedReply(saved.value, user));
  }

  /** The discrepancy between the two role stores: registration records the
      role in a user-role row only, and the admin check reads the user's own
      `role` key, so a freshly registered user is never admin by its record,
      whatever `role_id` was asked for and whatever the token claims. */
  lemma RegisteredUserIsNotAdmin(d: RegisterData, hash: string -> string, now: Time,
                                 roles: map<int, Role>, auth: Option<AdminPermission.Auth>)
    requires AllFilled(d)
    ensures !AdminPermission.HasPermission(
      AdminPermission.Request(Some(AdminPermission.Authenticated(AdminPermission.RoleOf(NewUser(d, hash, now), roles))), auth))
  {
  }

  // ---------------------------------------------------------------------
  // Cookies and responses

  /** A cookie as `set_cookie` records it. */
  datatype Cookie = Cookie(value: string, maxAge: int, httpOnly: bool, sameSite: Option<string>)

  /** What `delete_cookie` sets: an empty value with `Max-Age=0`, which by
      section 4.1.2.2 of RFC 6265 expires the cookie at once. */
  const Expired: Cookie := Cookie("", 0, false, None)

  /** A DRF `Response` whose cookies the views set and delete in place. */
  class HttpResponse {
    var status: int
    var body: Object
    var cookies: map<string, Cookie>

    constructor (body: Object, status: int)
      ensures this.body == body && this.status == status && cookies == map[]
    {
      this.body := body;
      this.status := status;
      cookies := map[];
    }

    /** `set_cookie(key, value, max_age=..., httponly=..., samesite=...)`. */
    method SetCookie(key: string, value: string, maxAge: int, httpOnly: bool, sameSite: Option<string>)
      modifies this
      ensures cookies == old(cookies)[key := Cookie(value, maxAge, httpOnly, sameSite)]
      ensures status == old(status) && body == old(body)
    {
      cookies := cookies[key := Cookie(value, maxAge, httpOnly, sameSite)];
    }

    /** `delete_cookie(key)`. */
    method DeleteCookie(key: string)
      modifies this
      ensures cookies == old(cookies)[key := Expired]
      ensures status == old(status) && body == old(body)
    {
      cookies := cookies[key := Expired];
    }
  }

  // ---------------------------------------------------------------------
  // Login and logout

  /** `tokens.get(key)` is a non-empty string. */
  predicate HasToken(tokens: map<string, string>, key: string)
  {
    key in tokens && tokens[key] != ""
  }

  /** `tokens.get(key)` as the body shows it. */
  function TokenValue(tokens: map<string, string>, key: string): (v: JValue)
    ensures key in tokens ==> v == JStr(tokens[key])
    ensures key !in tokens ==> v == JNull
  {
    if key in tokens then JStr(tokens[key]) else JNull
  }

  /** The login's role names: none without a user, else the user's live
      user-role rows' role names. */
  function LoginRoles(user: Option<int>, links: seq<UserRole>, roles: map<int, Role>): (names: seq<string>)
    requires TokenSerializer.RolesResolve(links, roles)
    ensures user.None? ==> names == []
    ensures user.Some? ==> names == TokenSerializer.ActiveRoleNames(links, user.value, roles)
    ensures user.Some? ==> forall n :: n in names <==>
      exists i :: 0 <= i < |links| && TokenSerializer.ActiveLink(links[i], user.value) && roles[links[i].role].name == n
  {
    if user.None? then []
    else
      var names := TokenSerializer.ActiveRoleNames(links, user.value, roles);
      assert forall n :: n in names <==>
        exists i :: 0 <= i < |links| && TokenSerializer.ActiveLink(links[i], user.value) && roles[links[i].role].name == n
      by {
        forall n ensures n in names <==>
          exists i :: 0 <= i < |links| && TokenSerializer.ActiveLink(links[i], user.value) && roles[links[i].role].name == n
        {
          TokenSerializer.ActiveRoleNamesMembership(links, user.value, roles, n);
        }
      }
      names
  }

  /** The `user` object of the login reply: the user's key and fields, or
      `None` for each without a user, and the role names. */
  function UserSummary(user: Option<(int, User)>, names: seq<string>): (f: Object)
    ensures f.Keys == {"id", "username", "email", "full_name", "roles"}
    ensures f["roles"] == TokenSerializer.StrList(names)
    ensures user.None? ==> f["id"] == JNull && f["username"] == JNull && f["email"] == JNull && f["full_name"] == JNull
    ensures user.Some? ==>
      && f["id"] == JNum(user.value.0) && f["username"] == JStr(user.value.1.username)
      && f["email"] == JStr(user.value.1.email) && f["full_name"] == JStr(user.value.1.fullName)
  {
    map["id" := (if user.Some? then JNum(user.value.0) else JNull),
        "username" := (if user.Some? then JStr(user.value.1.username) else JNull),
        "email" := (if user.Some? then JStr(user.value.1.email) else JNull),
        "full_name" := (if user.Some? then JStr(user.value.1.fullName) else JNull),
        "roles" := TokenSerializer.StrList(names)]
  }

  /** The login reply's body. */
  function LoginBody(tokens: map<string, string>, user: Option<(int, User)>, names: seq<string>): (b: Object)
    ensures b.Keys == {"message", "tokens", "user"}
    ensures b["message"] == JStr("Login successful")
    ensures b["tokens"] == JObj(map["access" := TokenValue(tokens, "access"), "refresh" := TokenValue(tokens, "refresh")])
    ensures b["user"] == JObj(UserSummary(user, names))
  {
    map["message" := JStr("Login successful"),
        "tokens" := JObj(map["access" := TokenValue(tokens, "access"), "refresh" := TokenValue(tokens, "refresh")]),
        "user" := JObj(UserSummary(user, names))]
  }

  /** The access cookie lives an hour, the refresh cookie a week; both are
      `HttpOnly` (section 4.1.2.6 of RFC 6265) and `SameSite=Lax`, and each is
      set only when its token is present. */
  function LoginCookies(tokens: map<string, string>): (c: map<string, Cookie>)
    ensures "access_token" in c <==> HasToken(tokens, "access")
    ensures "refresh_token" in c <==> HasToken(tokens, "refresh")
    ensures c.Keys <= {"access_token", "refresh_token"}
    ensures "access_token" in c ==> c["access_token"] == Cookie(tokens["access"], 3600, true, Some("Lax"))
    ensures "refresh_token" in c ==> c["refresh_token"] == Cookie(tokens["refresh"], 604800, true, Some("Lax"))
  {
    var withAccess: map<string, Cookie> :=
      if HasToken(tokens, "access") then map["access_token" := Cookie(tokens["access"], 3600, true, Some("Lax"))]
      else map[];
    if HasToken(tokens, "refresh") then withAccess["refresh_token" := Cookie(tokens["refresh"], 604800, true, Some("Lax"))]
    else withAccess
  }

  /** `MyTokenObtainPairView.post` after the credentials were accepted:
      `tokens` are the issued tokens and `user` the authenticated user, if any. */
  method Login(tokens: map<string, string>, user: Option<(int, User)>, links: seq<UserRole>,
               roles: map<int, Role>) returns (res: HttpResponse)
    requires TokenSerializer.RolesResolve(links, roles)
    ensures fresh(res)
    ensures res.status == 200
    ensures res.body == LoginBody(tokens, user, LoginRoles(if user.Some? then Some(user.value.0) else None, links, roles))
    ensures res.cookies == LoginCookies(tokens)
  {
    var names := LoginRoles(if user.Some? then Some(user.value.0) else None, links, roles);
    res := new HttpResponse(LoginBody(tokens, user, names), 200);
    if HasToken(tokens, "access") {
      res.SetCookie("access_token", tokens["access"], 3600, true, Some("Lax"));
    }
    if HasToken(tokens, "refresh") {
      res.SetCookie("refresh_token", tokens["refresh"], 604800, true, Some("Lax"));
    }
  }

  /** The body `logout_view` builds. */
  const LogoutMessage: Object := map["message" := JStr("Logged out")]

  /** Both token cookies replaced by expired ones. */
  const LogoutCookies: map<string, Cookie> := map["access_token" := Expired, "refresh_token" := Expired]

  /** `logout_view` as evidently intended, a DRF view (`@api_view`): a
      reply that deletes both token cookies. */
  method Logout() returns (res: HttpResponse)
    ensures fresh(res)
    ensures res.status == 200 && res.body == LogoutMessage
    ensures res.cookies == LogoutCookies
  {
    res := new HttpResponse(LogoutMessage, 200);
    res.DeleteCookie("access_token");
    res.DeleteCookie("refresh_token");
  }

  /** What reaches the client: a status, a body and the `Set-Cookie` headers. */
  datatype Delivered = Delivered(status: int, body: Object, cookies: map<string, Cookie>)

  /** Django's handler renders a DRF `Response` before sending it, and
      rendering asserts that a renderer was negotiated, which only a DRF view
      does. A failed assert becomes a 500 that carries none of the reply's
      cookies; the error page's own body is not modelled. */
  function Deliver(status: int, body: Object, cookies: map<string, Cookie>, negotiated: bool): (d: Delivered)
    ensures negotiated ==> d.status == status && d.body == body && d.cookies == cookies
    ensures !negotiated ==> d.status == 500 && d.cookies == map[]
  {
    if negotiated then Delivered(status, body, cookies) else Delivered(500, map[], map[])
  }

  /** `logout_view` as written, a plain Django view returning a DRF
      `Response`: rendering fails, the client gets a 500, and no cookie is
      deleted. */
  method LogoutAsWritten() returns (d: Delivered)
    ensures d.status == 500
    ensures "access_token" !in d.cookies && "refresh_token" !in d.cookies
  {
    var res := Logout();
    d := Deliver(res.status, res.body, res.cookies, false);
  }

  /** As intended, the client receives the 200 reply and both cookie deletions. */
  method LogoutAsApiView() returns (d: Delivered)
    ensures d == Delivered(200, LogoutMessage, LogoutCookies)
  {
    var res := Logout();
    d := Deliver(res.status, res.body, res.cookies, true);
  }

  /** After a login and a logout by the same client, both token cookies are
      expired whichever of them the login set, when the logout reply is
      delivered. */
  lemma LogoutOverridesLogin(tokens: map<string, string>, k: string)
    requires k in {"access_token", "refresh_token"}
    ensures (LoginCookies(tokens) + Deliver(200, LogoutMessage, LogoutCookies, true).cookies)[k] == Expired
  {
  }

  /** As written, a session survives logout: the access cookie the login set
      is still the client's afterwards. */
  lemma LogoutAsWrittenKeepsSession(tokens: map<string, string>)
    requires HasToken(tokens, "access")
    ensures (LoginCookies(tokens) + Deliver(200, LogoutMessage, LogoutCookies, false).cookies)["access_token"]
         == Cookie(tokens["access"], 3600, true, Some("Lax"))
  {
  }
}
