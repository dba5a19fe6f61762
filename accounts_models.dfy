/** The account tables (`tbl_users`, `tbl_roles`, `tbl_user_roles`), the
    authentication properties of a user row and the user manager's
    validation. Each table is a class whose `rows` the database operations
    reassign; the schema's unique and foreign-key constraints are checked where
    a row is written, as the database does, and reported as `IntegrityError`. */
module AccountModels {

  import opened Common
  import opened Json

  /** A `tbl_roles` row. */
  datatype Role = Role(name: string, createdAt: Option<Time>, modifiedAt: Option<Time>,
                       deletedAt: Option<Time>)

  /** A `tbl_users` row; `role` is the `role_id` foreign key. */
  datatype User = User(
    telephone: string,
    email: string,
    fullName: string,
    username: string,
    role: Option<int>,
    resetToken: Option<string>,
    resetExpiry: Option<Time>,
    password: string,
    createdAt: Time,
    deletedAt: Option<Time>,
    modifiedAt: Option<Time>)

  /** A `tbl_user_roles` row, the older many-to-many link between users and roles. */
  datatype UserRole = UserRole(id: int, user: int, role: int, createdAt: Option<Time>,
                               modifiedAt: Option<Time>, deletedAt: Option<Time>)

  // ---------------------------------------------------------------------
  // Authentication properties of a user row

  /** A user is active exactly while it is not soft-deleted. */
  function IsActive(u: User): (r: bool)
    ensures r <==> u.deletedAt == None
  {
    u.deletedAt.None?
  }

  /** No user is staff, whatever the row holds. */
  function IsStaff(u: User): (r: bool)
    ensures !r
  {
    false
  }

  /** No user is a superuser, whatever the row holds. */
  function IsSuperuser(u: User): (r: bool)
    ensures !r
  {
    false
  }

  /** No last-login time is ever reported. */
  function LastLogin(u: User): (r: Option<Time>)
    ensures r == None
  {
    None
  }

  // ---------------------------------------------------------------------
  // UserManager

  datatype ManagerError = UsernameRequired | EmailRequired

  function ManagerErrorMessage(e: ManagerError): string
  {
    match e
    case UsernameRequired => "Username is required"
    case EmailRequired => "Email is required"
  }

  /** What `create_user` hands to the model constructor and saves: the
      username, the normalised email, the password hash and the remaining
      keyword arguments. */
  datatype UserInit = UserInit(username: string, email: string, password: string, extra: Object)

  /** `create_user`: a falsy username is refused first, then a falsy email;
      otherwise the email is normalised and the password hashed.
      `normalizeEmail` and `makePassword` stand for Django's helpers. Python
      binds `username`, `email` and `password` to the parameters, so `extra`
      never holds those keys in a call the source can make; the model does not
      need to exclude them. */
  function CreateUser(username: Option<string>, email: Option<string>, password: Option<string>,
                      extra: Object, normalizeEmail: string -> string,
                      makePassword: Option<string> -> string): (r: Result<UserInit, ManagerError>)
    ensures r == Failure(UsernameRequired) <==> !Filled(username)
    ensures r == Failure(EmailRequired) <==> Filled(username) && !Filled(email)
    ensures r.Success? <==> Filled(username) && Filled(email)
    ensures r.Success? ==>
      r.value == UserInit(username.value, normalizeEmail(email.value), makePassword(password), extra)
  {
    if !Filled(username) then Failure(UsernameRequired)
    else if !Filled(email) then Failure(EmailRequired)
    else Success(UserInit(username.value, normalizeEmail(email.value), makePassword(password), extra))
  }

  /** `d.setdefault(k, v)` on a keyword dictionary: a value already present wins. */
  function SetDefault(d: Object, k: string, v: JValue): (r: Object)
    ensures r.Keys == d.Keys + {k}
    ensures k in d ==> r[k] == d[k]
    ensures k !in d ==> r[k] == v
    ensures forall j :: j in d ==> r[j] == d[j]
  {
    if k in d then d else d[k := v]
  }

  /** The keyword arguments `create_superuser` forwards: `is_staff` and
      `is_superuser` default to `True`, a caller's value is kept, and every
      other argument passes through. */
  function SuperuserExtra(extra: Object): (r: Object)
    ensures r.Keys == extra.Keys + {"is_staff", "is_superuser"}
    ensures r["is_staff"] == (if "is_staff" in extra then extra["is_staff"] else JBool(true))
    ensures r["is_superuser"] == (if "is_superuser" in extra then extra["is_superuser"] else JBool(true))
    ensures forall j :: j in extra ==> r[j] == extra[j]
  {
    SetDefault(SetDefault(extra, "is_staff", JBool(true)), "is_superuser", JBool(true))
  }

  /** `create_superuser`: `create_user` with the two flags defaulted. */
  function CreateSuperuser(username: Option<string>, email: Option<string>, password: Option<string>,
                           extra: Object, normalizeEmail: string -> string,
                           makePassword: Option<string> -> string): (r: Result<UserInit, ManagerError>)
    ensures r.Failure? <==> !Filled(username) || !Filled(email)
    ensures r.Failure? ==> r.error == (if Filled(username) then EmailRequired else UsernameRequired)
    ensures r.Success? ==>
      && r.value.username == username.value
      && r.value.email == normalizeEmail(email.value)
      && r.value.password == makePassword(password)
      && r.value.extra == SuperuserExtra(extra)
    ensures r.Success? ==>
      && r.value.extra["is_staff"] == (if "is_staff" in extra then extra["is_staff"] else JBool(true))
      && r.value.extra["is_superuser"] == (if "is_superuser" in extra then extra["is_superuser"] else JBool(true))
  {
    CreateUser(username, email, password, SuperuserExtra(extra), normalizeEmail, makePassword)
  }

  /** The attributes of `User` that are properties without a setter: the
      class's own `is_active`, `is_staff`, `is_superuser` and `last_login`
      (which also displace the inherited `is_superuser` and `last_login`
      columns) and the base class's `is_anonymous` and `is_authenticated`. */
  const ReadOnlyAttributes: set<string> :=
    {"is_active", "is_staff", "is_superuser", "last_login", "is_anonymous", "is_authenticated"}

  /** The keyword arguments naming a column of `tbl_users`, and `pk`, the
      settable property that stands for `id`. */
  const UserColumns: set<string> :=
    {"id", "pk", "telephone", "email", "full_name", "username", "role", "role_id", "reset_token", "reset_expiry",
     "password", "created_at", "deleted_at", "modified_at"}

  /** Why creating a user through the manager fails. */
  datatype CreateError =
    | Invalid(reason: ManagerError)
    | AttributeError
    | TypeError
    | Db(error: DbError)

  /** A string keyword argument; a `CharField` that is not given is `''`. */
  function Text(extra: Object, k: string): (s: string)
    ensures k in extra && extra[k].JStr? ==> s == extra[k].s
    ensures !(k in extra && extra[k].JStr?) ==> s == ""
  {
    if k in extra && extra[k].JStr? then extra[k].s else ""
  }

  /** `self.model(username=..., email=..., **extra_fields)` with the password
      set: a read-only property among the keywords raises `AttributeError`
      while the instance is built (from Django 4.1 on; earlier versions
      swallow it and raise `TypeError` for the leftover keyword instead), and a keyword that is neither a column nor
      a property raises `TypeError` afterwards. `created_at` has no default
      and is `NOT NULL`, so without it the save raises `IntegrityError`.
      The keywords are a map: Django's call order, which decides between a
      many-to-many keyword's `TypeError` and a property's `AttributeError`,
      is not modelled. */
  function Instantiate(init: UserInit): (r: Result<User, CreateError>)
    ensures init.extra.Keys * ReadOnlyAttributes != {} ==> r == Failure(AttributeError)
    ensures init.extra.Keys * ReadOnlyAttributes == {} && !(init.extra.Keys <= UserColumns) ==> r == Failure(TypeError)
    ensures init.extra.Keys <= UserColumns && ("created_at" !in init.extra || !init.extra["created_at"].JNum?) ==>
      r == Failure(Db(IntegrityError))
    ensures (&& init.extra.Keys * ReadOnlyAttributes == {} && init.extra.Keys <= UserColumns
             && "created_at" in init.extra && init.extra["created_at"].JNum?) ==> r.Success?
    ensures r.Success? ==>
      && r.value.username == init.username && r.value.email == init.email && r.value.password == init.password
      && r.value.telephone == Text(init.extra, "telephone") && r.value.fullName == Text(init.extra, "full_name")
      && r.value.createdAt == init.extra["created_at"].n
      && r.value.deletedAt == None
  {
    if init.extra.Keys * ReadOnlyAttributes != {} then Failure(AttributeError)
    else if !(init.extra.Keys <= UserColumns) then Failure(TypeError)
    else if "created_at" !in init.extra || !init.extra["created_at"].JNum? then Failure(Db(IntegrityError))
    else Success(User(Text(init.extra, "telephone"), init.email, Text(init.extra, "full_name"), init.username,
                      None, None, None, init.password, init.extra["created_at"].n, None, None))
  }

  /** `create_superuser` never reaches the database: `is_staff` is always
      among the keywords it forwards, and `is_staff` is a read-only property
      (`AttributeError` from Django 4.1 on, `TypeError` before). */
  lemma SuperuserNeverInstantiated(username: Option<string>, email: Option<string>, password: Option<string>,
                                   extra: Object, normalizeEmail: string -> string,
                                   makePassword: Option<string> -> string)
    ensures var r := CreateSuperuser(username, email, password, extra, normalizeEmail, makePassword);
      r.Success? ==> Instantiate(r.value) == Failure(AttributeError)
  {
    var r := CreateSuperuser(username, email, password, extra, normalizeEmail, makePassword);
    if r.Success? {
      assert "is_staff" in r.value.extra.Keys * ReadOnlyAttributes;
    }
  }

  // ---------------------------------------------------------------------
  // Constraints of the account tables

  predicate UsernameTaken(rows: map<int, User>, name: string)
  {
    exists id :: id in rows && rows[id].username == name
  }

  predicate EmailTaken(rows: map<int, User>, email: string)
  {
    exists id :: id in rows && rows[id].email == email
  }

  /** `username` and `email` are both declared unique. */
  ghost predicate UniqueUsers(rows: map<int, User>)
  {
    && (forall a, b :: a in rows && b in rows && rows[a].username == rows[b].username ==> a == b)
    && (forall a, b :: a in rows && b in rows && rows[a].email == rows[b].email ==> a == b)
  }

  /** Writing `u` under `id` keeps both unique constraints. */
  predicate Fits(rows: map<int, User>, id: int, u: User)
  {
    forall other :: other in rows && other != id ==>
      rows[other].username != u.username && rows[other].email != u.email
  }

  /** The foreign keys between the three account tables: every user's role
      and both ends of every user-role row exist. */
  ghost predicate Linked(users: map<int, User>, roles: map<int, Role>, userRoles: seq<UserRole>)
  {
    && (forall id :: id in users && users[id].role.Some? ==> users[id].role.value in roles)
    && (forall i :: 0 <= i < |userRoles| ==> userRoles[i].user in users && userRoles[i].role in roles)
  }

  class UserTable {
    var rows: map<int, User>
    /** The next value of the auto-increment key. */
    var nextId: int

    ghost predicate Valid()
      reads this
    {
      && 0 < nextId
      && (forall id :: id in rows ==> 0 < id < nextId)
      && UniqueUsers(rows)
    }

    constructor ()
      ensures Valid() && rows == map[] && nextId == 1
    {
      rows := map[];
      nextId := 1;
    }

    /** `save()` of a new instance: an auto-increment key, refused when the
        username or the email is already in use. */
    method Insert(u: User) returns (r: Result<int, DbError>)
      requires Valid()
      modifies this
      ensures Valid()
      ensures r.Success? <==> !UsernameTaken(old(rows), u.username) && !EmailTaken(old(rows), u.email)
      ensures r.Success? ==>
        && r.value == old(nextId) && r.value !in old(rows)
        && rows == old(rows)[r.value := u] && nextId == old(nextId) + 1
      ensures r.Failure? ==> r.error == IntegrityError && rows == old(rows) && nextId == old(nextId)
    {
      if UsernameTaken(rows, u.username) || EmailTaken(rows, u.email) {
        return Failure(IntegrityError);
      }
      r := Success(nextId);
      rows := rows[nextId := u];
      nextId := nextId + 1;
    }

    /** `save()` of an existing row, refused when the new username or email
        belongs to another row. */
    method Update(id: int, u: User) returns (ok: bool)
      requires Valid() && id in rows
      modifies this
      ensures Valid() && nextId == old(nextId)
      ensures ok <==> Fits(old(rows), id, u)
      ensures rows == if ok then old(rows)[id := u] else old(rows)
    {
      ok := Fits(rows, id, u);
      if ok {
        rows := rows[id := u];
      }
    }
  }

  class RoleTable {
    var rows: map<int, Role>

    /** `name` is declared unique. */
    ghost predicate Valid()
      reads this
    {
      forall a, b :: a in rows && b in rows && rows[a].name == rows[b].name ==> a == b
    }

    constructor ()
      ensures Valid() && rows == map[]
    {
      rows := map[];
    }

    /** Insert or update the row with primary key `id`, refused when another
        row already carries the name. */
    method Put(id: int, role: Role) returns (ok: bool)
      requires Valid()
      modifies this
      ensures Valid()
      ensures ok <==> forall other :: other in old(rows) && other != id ==> old(rows)[other].name != role.name
      ensures rows == if ok then old(rows)[id := role] else old(rows)
    {
      ok := forall other :: other in rows && other != id ==> rows[other].name != role.name;
      if ok {
        rows := rows[id := role];
      }
    }
  }

  class UserRoleTable {
    /** The rows in the order the table returns them. */
    var rows: seq<UserRole>
    var nextId: int

    /** Keys are below the auto-increment counter and `(user, role)` is unique. */
    ghost predicate Valid()
      reads this
    {
      && (forall i :: 0 <= i < |rows| ==> rows[i].id < nextId)
      && (forall i, j :: 0 <= i < j < |rows| ==>
            rows[i].id != rows[j].id && (rows[i].user, rows[i].role) != (rows[j].user, rows[j].role))
    }

    constructor ()
      ensures Valid() && rows == [] && nextId == 1
    {
      rows := [];
      nextId := 1;
    }

    /** `UserRole.objects.create(...)`: refused when either foreign key is
        dangling or the pair is already linked. */
    method Insert(user: int, role: int, createdAt: Option<Time>, users: map<int, User>,
                  roles: map<int, Role>) returns (ok: bool)
      requires Valid()
      modifies this
      ensures Valid()
      ensures ok <==> (&& user in users && role in roles
                       && forall i :: 0 <= i < |old(rows)| ==>
                            (old(rows)[i].user, old(rows)[i].role) != (user, role))
      ensures ok ==>
        && rows == old(rows) + [UserRole(old(nextId), user, role, createdAt, None, None)]
        && nextId == old(nextId) + 1
      ensures !ok ==> rows == old(rows) && nextId == old(nextId)
    {
      ok := user in users && role in roles
        && forall i :: 0 <= i < |rows| ==> (rows[i].user, rows[i].role) != (user, role);
      if ok {
        rows := rows + [UserRole(nextId, user, role, createdAt, None, None)];
        nextId := nextId + 1;
      }
    }
  }

  // ---------------------------------------------------------------------
  // The manager's save

  /** `create_user` through to the save: the validation, the model
      constructor, then the insert, which refuses a username or email in use. */
  method CreateAndSave(users: UserTable, username: Option<string>, email: Option<string>,
                       password: Option<string>, extra: Object, normalizeEmail: string -> string,
                       makePassword: Option<string> -> string) returns (r: Result<int, CreateError>)
    requires users.Valid()
    modifies users
    ensures users.Valid()
    ensures var init := CreateUser(username, email, password, extra, normalizeEmail, makePassword);
      && (init.Failure? ==> r == Failure(Invalid(init.error)))
      && (init.Success? && Instantiate(init.value).Failure? ==> r == Failure(Instantiate(init.value).error))
      && (init.Success? && Instantiate(init.value).Success? ==>
            var u := Instantiate(init.value).value;
            && (r.Success? <==> !UsernameTaken(old(users.rows), u.username) && !EmailTaken(old(users.rows), u.email))
            && (r.Success? ==> r.value !in old(users.rows) && users.rows == old(users.rows)[r.value := u])
            && (r.Failure? ==> r.error == Db(IntegrityError)))
    ensures r.Failure? ==> users.rows == old(users.rows) && users.nextId == old(users.nextId)
  {
    var init := CreateUser(username, email, password, extra, normalizeEmail, makePassword);
    if init.Failure? {
      return Failure(Invalid(init.error));
    }
    var built := Instantiate(init.value);
    if built.Failure? {
      return Failure(built.error);
    }
    var saved := users.Insert(built.value);
    if saved.Failure? {
      return Failure(Db(saved.error));
    }
    r := Success(saved.value);
  }

  /** `create_superuser` through to the save: it is refused by the
      validation or raises `AttributeError`, and saves nothing. */
  method CreateSuperuserAndSave(users: UserTable, username: Option<string>, email: Option<string>,
                                password: Option<string>, extra: Object, normalizeEmail: string -> string,
                                makePassword: Option<string> -> string) returns (r: Result<int, CreateError>)
    requires users.Valid()
    modifies users
    ensures users.Valid()
    ensures !Filled(username) ==> r == Failure(Invalid(UsernameRequired))
    ensures Filled(username) && !Filled(email) ==> r == Failure(Invalid(EmailRequired))
    ensures Filled(username) && Filled(email) ==> r == Failure(AttributeError)
    ensures users.rows == old(users.rows) && users.nextId == old(users.nextId)
  {
    SuperuserNeverInstantiated(username, email, password, extra, normalizeEmail, makePassword);
    r := CreateAndSave(users, username, email, password, SuperuserExtra(extra), normalizeEmail, makePassword);
  }
}
