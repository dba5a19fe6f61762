/** `IsAdminRole.has_permission`: the admin-role decision. A bound,
    authenticated user is judged by its single `role` foreign key alone; only
    without one is the token payload consulted, first its structured or string
    `role` claim, then the legacy `roles` claim. Every comparison is
    case-insensitive and every unexpected shape denies. */
module AdminPermission {

  import opened Common
  import opened Json
  import AccountModels

  /** `request.user`: Django's anonymous user, or a user record with the role
      row its `role_id` resolves to (`None` when the key is null or dangling,
      which is also what `getattr(user, 'role', None)` yields then). */
  datatype RequestUser = Anonymous | Authenticated(role: Option<AccountModels.Role>)

  /** `request.auth`: a decoded payload dictionary, or a token object whose
      `payload` attribute may be missing. */
  datatype Auth = PayloadDict(claims: Object) | TokenObject(payload: Option<Object>)

  datatype Request = Request(user: Option<RequestUser>, auth: Option<Auth>)

  /** The role a user record's foreign key resolves to. */
  function RoleOf(u: AccountModels.User, roles: map<int, AccountModels.Role>): (r: Option<AccountModels.Role>)
    ensures r.Some? <==> u.role.Some? && u.role.value in roles
    ensures r.Some? ==> r.value == roles[u.role.value]
  {
    if u.role.Some? && u.role.value in roles then Some(roles[u.role.value]) else None
  }

  /** The user path: an absent or soft-deleted role denies; otherwise the
      role's name is compared with "admin". */
  predicate UserRoleIsAdmin(role: Option<AccountModels.Role>)
  {
    match role
    case None => false
    case Some(r) => r.deletedAt.None? && IsAdminName(r.name)
  }

  /** `token` itself when it is a dict, else `token.payload or {}`. */
  function Payload(a: Auth): (p: Object)
    ensures a.PayloadDict? ==> p == a.claims
    ensures a.TokenObject? && a.payload.Some? ==> p == a.payload.value
    ensures a.TokenObject? && a.payload.None? ==> p == map[]
  {
    match a
    case PayloadDict(claims) => claims
    case TokenObject(payload) => if payload.Some? then payload.value else map[]
  }

  /** A structured `role` claim: `role_name`, falling back to `name` when that
      is falsy, and `''` when both are. */
  predicate RoleObjectIsAdmin(role: Object)
  {
    StrIsAdmin(Or(Or(Get(role, "role_name"), Get(role, "name")), JStr("")))
  }

  /** The legacy `roles` claim, `[]` when missing or falsy: a list grants when
      some element is "admin", a string when it is, anything else denies. */
  predicate LegacyRolesAreAdmin(payload: Object)
  {
    match Or(Get(payload, "roles"), JList([]))
    case JList(items) => AnyAdmin(items)
    case JStr(s) => IsAdminName(s)
    case _ => false
  }

  /** The token path: a dict or string `role` claim decides on its own; only
      otherwise is `roles` consulted. */
  predicate PayloadIsAdmin(payload: Object)
  {
    match Get(payload, "role")
    case JObj(role) => RoleObjectIsAdmin(role)
    case JStr(s) => IsAdminName(s)
    case _ => LegacyRolesAreAdmin(payload)
  }

  /** `has_permission(request, view)`. */
  predicate HasPermission(req: Request)
  {
    if req.user.Some? && req.user.value.Authenticated? then UserRoleIsAdmin(req.user.value.role)
    else if req.auth.Some? then PayloadIsAdmin(Payload(req.auth.value))
    else false
  }

  // ---------------------------------------------------------------------
  // The user record takes precedence

  /** An authenticated user is judged by its role alone: the token, whatever
      it claims, is never consulted. */
  lemma AuthenticatedIgnoresToken(role: Option<AccountModels.Role>, a1: Option<Auth>, a2: Option<Auth>)
    ensures HasPermission(Request(Some(Authenticated(role)), a1))
        == HasPermission(Request(Some(Authenticated(role)), a2))
  {
  }

  /** An authenticated user is allowed exactly when its role exists, is not
      soft-deleted and is named "admin" in some letter case. */
  lemma AuthenticatedDecision(role: Option<AccountModels.Role>, a: Option<Auth>)
    ensures HasPermission(Request(Some(Authenticated(role)), a)) <==>
      role.Some? && role.value.deletedAt == None && Lower(role.value.name) == "admin"
  {
  }

  /** A soft-deleted role is the same as no role: denied, even when named
      "admin" and even when the token claims admin. */
  lemma SoftDeletedRoleDenied(role: AccountModels.Role, a: Option<Auth>)
    requires role.deletedAt.Some?
    ensures !HasPermission(Request(Some(Authenticated(Some(role))), a))
    ensures HasPermission(Request(Some(Authenticated(Some(role))), a))
        == HasPermission(Request(Some(Authenticated(None)), a))
  {
  }

  /** Without an authenticated user the decision is the token payload's, and
      without a token it is a denial. */
  lemma TokenFallback(user: Option<RequestUser>, a: Option<Auth>)
    requires user.None? || user == Some(Anonymous)
    ensures a.None? ==> !HasPermission(Request(user, a))
    ensures a.Some? ==> HasPermission(Request(user, a)) == PayloadIsAdmin(Payload(a.value))
  {
  }

  /** A token object is read through its payload; a missing payload reads as
      an empty claims set, which denies. */
  lemma TokenObjectReadsPayload(user: Option<RequestUser>, p: Object)
    requires user.None? || user == Some(Anonymous)
    ensures HasPermission(Request(user, Some(TokenObject(Some(p)))))
        == HasPermission(Request(user, Some(PayloadDict(p))))
    ensures !HasPermission(Request(user, Some(TokenObject(None))))
  {
  }

  // ---------------------------------------------------------------------
  // Precedence inside the token payload

  /** A dict `role` claim decides by its `role_name` (or, when that is falsy,
      its `name`) alone; the `roles` claim is ignored. */
  lemma StructuredRoleDecides(payload: Object, roles: JValue)
    requires Get(payload, "role").JObj?
    ensures PayloadIsAdmin(payload) <==>
      var role := Get(payload, "role").fields;
      if Truthy(Get(role, "role_name")) then StrIsAdmin(Get(role, "role_name"))
      else StrIsAdmin(Get(role, "name"))
    ensures PayloadIsAdmin(payload) == PayloadIsAdmin(payload["roles" := roles])
  {
    assert Get(payload["roles" := roles], "role") == Get(payload, "role");
  }

  /** A string `role` claim decides alone, even the empty string; the `roles`
      claim is ignored. */
  lemma StringRoleDecides(payload: Object, roles: JValue)
    requires Get(payload, "role").JStr?
    ensures PayloadIsAdmin(payload) <==> Lower(Get(payload, "role").s) == "admin"
    ensures PayloadIsAdmin(payload) == PayloadIsAdmin(payload["roles" := roles])
  {
    assert Get(payload["roles" := roles], "role") == Get(payload, "role");
  }

  /** Only when `role` is neither a dict nor a string is `roles` read: a list
      grants when some element is "admin", a string when it is, and a
      missing, empty or otherwise-typed claim denies. */
  lemma LegacyRolesFallback(payload: Object)
    requires !Get(payload, "role").JObj? && !Get(payload, "role").JStr?
    ensures PayloadIsAdmin(payload) <==>
      match Get(payload, "roles")
      case JList(items) => exists i :: 0 <= i < |items| && StrIsAdmin(items[i])
      case JStr(s) => Lower(s) == "admin"
      case _ => false
  {
  }

  /** A structured role: `role_name` wins over `name`, which is read only
      when `role_name` is falsy. */
  lemma StructuredRoleExamples()
    ensures PayloadIsAdmin(map["role" := JObj(map["id" := JNum(1), "role_name" := JStr("Admin")])])
    ensures !PayloadIsAdmin(map["role" := JObj(map["role_name" := JStr("Manager"), "name" := JStr("admin")])])
    ensures PayloadIsAdmin(map["role" := JObj(map["role_name" := JStr(""), "name" := JStr("ADMIN")])])
  {
    AdminNameSpelling("Admin");
    AdminNameSpelling("Manager");
    AdminNameSpelling("ADMIN");
  }

  /** An empty string `role` still short-circuits, so the admin entry in
      `roles` is never read. */
  lemma EmptyStringRoleExample()
    ensures !PayloadIsAdmin(map["role" := JStr(""), "roles" := JList([JStr("admin")])])
  {
  }

  /** The legacy claim: any admin entry of a list, or an admin string;
      nested lists and numbers deny. */
  lemma LegacyRolesExamples()
    ensures PayloadIsAdmin(map["role" := JNull, "roles" := JList([JStr("user"), JStr("aDmIn")])])
    ensures PayloadIsAdmin(map["roles" := JStr("Admin")])
    ensures !PayloadIsAdmin(map["roles" := JList([JList([JStr("admin")])])])
    ensures !PayloadIsAdmin(map["roles" := JNum(1)])
  {
    AdminNameSpelling("aDmIn");
    AdminNameSpelling("Admin");
    assert StrIsAdmin([JStr("user"), JStr("aDmIn")][1]);
  }
}
