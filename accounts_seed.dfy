/** The `0002_seed_default_admin` migration. Forward: upsert roles 1, 2 and 3
    by key, then get or create the `admin` user; an existing admin gets each
    default field that differs, except that a non-empty password is kept, and
    is saved only when something changed. Reverse: delete the admin and the
    three roles, with the cascades inside the account tables. The migration
    runs in one transaction, so an error restores every table. */
module AdminSeed {

  import opened Common
  import opened AccountModels

  // ---------------------------------------------------------------------
  // The roles

  /** The roles the migration guarantees, by key. */
  const RoleSeeds: seq<(int, string)> := [(1, "Admin"), (2, "Manager"), (3, "User")]

  /** The keys of the first `i` seeds. */
  function SeedKeys(i: nat): (r: set<int>)
    requires i <= |RoleSeeds|
    ensures forall k :: k in r <==> exists j :: 0 <= j < i && RoleSeeds[j].0 == k
  {
    set j | 0 <= j < i :: RoleSeeds[j].0
  }

  /** A role row as the upsert leaves it. */
  function SeededRole(name: string, now: Time): Role
  {
    Role(name, Some(now), Some(now), None)
  }

  /** The role rows after the first `i` upserts. */
  function RolesAfter(rows: map<int, Role>, i: nat, now: Time): map<int, Role>
    requires i <= |RoleSeeds|
  {
    if i == 0 then rows
    else RolesAfter(rows, i - 1, now)[RoleSeeds[i - 1].0 := SeededRole(RoleSeeds[i - 1].1, now)]
  }

  /** The first `i` upserts give each of their keys its seeded row and leave
      every other key as it was. */
  lemma {:induction false} RolesAfterShape(rows: map<int, Role>, i: nat, now: Time)
    requires i <= |RoleSeeds|
    ensures forall j :: 0 <= j < i ==>
      RoleSeeds[j].0 in RolesAfter(rows, i, now)
      && RolesAfter(rows, i, now)[RoleSeeds[j].0] == SeededRole(RoleSeeds[j].1, now)
    ensures forall k :: k !in SeedKeys(i) ==>
      (k in RolesAfter(rows, i, now) <==> k in rows)
      && (k in rows ==> RolesAfter(rows, i, now)[k] == rows[k])
  {
    if i > 0 {
      RolesAfterShape(rows, i - 1, now);
      forall k | k !in SeedKeys(i) ensures k !in SeedKeys(i - 1) && k != RoleSeeds[i - 1].0 {
      }
    }
  }

  /** The `i`-th upsert writes its name under its key; the unique name is
      violated when a row outside the keys seeded so far already has it. */
  predicate RoleSeedFits(rows: map<int, Role>, i: nat)
    requires i < |RoleSeeds|
  {
    forall k :: k in rows && rows[k].name == RoleSeeds[i].1 ==> k in SeedKeys(i + 1)
  }

  /** All three upserts succeed. */
  predicate RolesFit(rows: map<int, Role>)
  {
    forall i :: 0 <= i < |RoleSeeds| ==> RoleSeedFits(rows, i)
  }

  /** `RoleTable.Put` accepts `name` under `id`. */
  predicate PutAllowed(rows: map<int, Role>, id: int, name: string)
  {
    forall other :: other in rows && other != id ==> rows[other].name != name
  }

  /** The `i`-th upsert, applied after the earlier ones, is refused exactly
      when `RoleSeedFits` fails for the original rows. */
  lemma PutFits(rows: map<int, Role>, i: nat, now: Time)
    requires i < |RoleSeeds|
    ensures PutAllowed(RolesAfter(rows, i, now), RoleSeeds[i].0, RoleSeeds[i].1) <==> RoleSeedFits(rows, i)
  {
    RolesAfterShape(rows, i, now);
    var after := RolesAfter(rows, i, now);
    if RoleSeedFits(rows, i) {
      forall other | other in after && other != RoleSeeds[i].0 ensures after[other].name != RoleSeeds[i].1 {
        if other in SeedKeys(i) {
          var j :| 0 <= j < i && RoleSeeds[j].0 == other;
          assert after[other] == SeededRole(RoleSeeds[j].1, now);
        } else {
          assert other !in SeedKeys(i + 1);
        }
      }
    } else {
      var k :| k in rows && rows[k].name == RoleSeeds[i].1 && k !in SeedKeys(i + 1);
      assert k != RoleSeeds[i].0;
      assert k !in SeedKeys(i);
      assert k in after && after[k].name == RoleSeeds[i].1;
      assert !PutAllowed(after, RoleSeeds[i].0, RoleSeeds[i].1);
    }
  }

  /** After the forward run the three roles hold their seeded rows, with
      `deleted_at` cleared, and every other role is untouched. */
  lemma SeededRoles(rows: map<int, Role>, now: Time)
    ensures var after := RolesAfter(rows, |RoleSeeds|, now);
      && after.Keys == rows.Keys + {1, 2, 3}
      && after[1] == SeededRole("Admin", now)
      && after[2] == SeededRole("Manager", now)
      && after[3] == SeededRole("User", now)
      && forall k :: k in rows && k !in {1, 2, 3} ==> after[k] == rows[k]
  {
    RolesAfterShape(rows, |RoleSeeds|, now);
    assert SeedKeys(|RoleSeeds|) == {1, 2, 3} by {
      assert RoleSeeds[0].0 == 1 && RoleSeeds[1].0 == 2 && RoleSeeds[2].0 == 3;
    }
    assert RoleSeeds[0] == (1, "Admin") && RoleSeeds[1] == (2, "Manager") && RoleSeeds[2] == (3, "User");
  }

  /** The role loop: `update_or_create(id=..., defaults=...)` for each seed. */
  method SeedRoles(roles: RoleTable, now: Time) returns (ok: bool)
    requires roles.Valid()
    modifies roles
    ensures roles.Valid()
    ensures ok <==> RolesFit(old(roles.rows))
    ensures ok ==> roles.rows == RolesAfter(old(roles.rows), |RoleSeeds|, now)
  {
    ghost var start := roles.rows;
    var i := 0;
    while i < |RoleSeeds|
      invariant 0 <= i <= |RoleSeeds|
      invariant roles.Valid()
      invariant roles.rows == RolesAfter(start, i, now)
      invariant forall j :: 0 <= j < i ==> RoleSeedFits(start, j)
    {
      var (id, name) := RoleSeeds[i];
      PutFits(start, i, now);
      var put := roles.Put(id, SeededRole(name, now));
      if !put {
        return false;
      }
      i := i + 1;
    }
    ok := true;
  }

  // ---------------------------------------------------------------------
  // The admin user

  const AdminUsername: string := "admin"
  const AdminEmail: string := "admin@example.com"
  const AdminFullName: string := "System Admin"
  const AdminTelephone: string := "+254700100200"
  const AdminRoleId: int := 1

  /** The keys of `user_defaults`, in order. */
  datatype Field = Email | FullName | Telephone | Password | RoleKey | CreatedAt | ModifiedAt | DeletedAt

  const DefaultFields: seq<Field> := [Email, FullName, Telephone, Password, RoleKey, CreatedAt, ModifiedAt, DeletedAt]

  lemma EveryFieldDefaulted(f: Field)
    ensures f in DefaultFields
  {
    match f
    case Email => assert DefaultFields[0] == f;
    case FullName => assert DefaultFields[1] == f;
    case Telephone => assert DefaultFields[2] == f;
    case Password => assert DefaultFields[3] == f;
    case RoleKey => assert DefaultFields[4] == f;
    case CreatedAt => assert DefaultFields[5] == f;
    case ModifiedAt => assert DefaultFields[6] == f;
    case DeletedAt => assert DefaultFields[7] == f;
  }

  /** A field's value; the role is compared by key, as model instances are. */
  datatype Value = Text(s: string) | Ref(key: Option<int>) | Stamp(t: Option<Time>)

  /** `getattr(user, field)`. */
  function Current(u: User, f: Field): Value
  {
    match f
    case Email => Text(u.email)
    case FullName => Text(u.fullName)
    case Telephone => Text(u.telephone)
    case Password => Text(u.password)
    case RoleKey => Ref(u.role)
    case CreatedAt => Stamp(Some(u.createdAt))
    case ModifiedAt => Stamp(u.modifiedAt)
    case DeletedAt => Stamp(u.deletedAt)
  }

  /** `user_defaults[field]`; `hash` stands for `make_password('secret123')`. */
  function Default(f: Field, hash: string, now: Time): Value
  {
    match f
    case Email => Text(AdminEmail)
    case FullName => Text(AdminFullName)
    case Telephone => Text(AdminTelephone)
    case Password => Text(hash)
    case RoleKey => Ref(Some(AdminRoleId))
    case CreatedAt => Stamp(Some(now))
    case ModifiedAt => Stamp(Some(now))
    case DeletedAt => Stamp(None)
  }

  /** `setattr(user, field, user_defaults[field])`. */
  function AssignDefault(u: User, f: Field, hash: string, now: Time): (r: User)
    ensures Current(r, f) == Default(f, hash, now)
    ensures forall g :: g != f ==> Current(r, g) == Current(u, g)
    ensures r.username == u.username && r.resetToken == u.resetToken && r.resetExpiry == u.resetExpiry
  {
    match f
    case Email => u.(email := AdminEmail)
    case FullName => u.(fullName := AdminFullName)
    case Telephone => u.(telephone := AdminTelephone)
    case Password => u.(password := hash)
    case RoleKey => u.(role := Some(AdminRoleId))
    case CreatedAt => u.(createdAt := now)
    case ModifiedAt => u.(modifiedAt := Some(now))
    case DeletedAt => u.(deletedAt := None)
  }

  /** The update rule: an empty password is replaced, any other field is
      replaced when it differs from its default. */
  predicate Differs(u: User, f: Field, hash: string, now: Time)
  {
    if f == Password then u.password == "" else Current(u, f) != Default(f, hash, now)
  }

  /** The fields of `fs`, in order, that the rule selects. */
  function Changed(u: User, fs: seq<Field>, hash: string, now: Time): (r: seq<Field>)
    ensures |r| <= |fs|
  {
    if fs == [] then []
    else (if Differs(u, fs[0], hash, now) then [fs[0]] else []) + Changed(u, fs[1..], hash, now)
  }

  /** A field is selected exactly when it is listed and the rule picks it. */
  lemma {:induction false} ChangedMembers(u: User, fs: seq<Field>, hash: string, now: Time)
    ensures forall g :: g in Changed(u, fs, hash, now) <==> g in fs && Differs(u, g, hash, now)
    ensures (forall g :: g in fs ==> !Differs(u, g, hash, now)) ==> Changed(u, fs, hash, now) == []
    decreases |fs|
  {
    if fs != [] {
      ChangedMembers(u, fs[1..], hash, now);
      assert forall g :: g in fs <==> g == fs[0] || g in fs[1..];
    }
  }

  /** The keys of `update_fields` for an existing admin. */
  function UpdateFields(u: User, hash: string, now: Time): (r: seq<Field>)
    ensures forall g :: g in r <==> Differs(u, g, hash, now)
    ensures (forall g :: !Differs(u, g, hash, now)) ==> r == []
  {
    var r := Changed(u, DefaultFields, hash, now);
    assert forall g :: g in r <==> Differs(u, g, hash, now) by {
      ChangedMembers(u, DefaultFields, hash, now);
      forall g ensures g in r <==> Differs(u, g, hash, now) {
        EveryFieldDefaulted(g);
      }
    }
    assert (forall g :: !Differs(u, g, hash, now)) ==> r == [] by {
      ChangedMembers(u, DefaultFields, hash, now);
    }
    r
  }

  /** The row with the defaults of `fs` assigned in turn. */
  function ApplyDefaults(u: User, fs: seq<Field>, hash: string, now: Time): (r: User)
    ensures forall g :: Current(r, g) == if g in fs then Default(g, hash, now) else Current(u, g)
    ensures r.username == u.username && r.resetToken == u.resetToken && r.resetExpiry == u.resetExpiry
    decreases |fs|
  {
    if fs == [] then u
    else ApplyDefaults(AssignDefault(u, fs[0], hash, now), fs[1..], hash, now)
  }

  lemma {:induction false} ChangedAppend(u: User, fs: seq<Field>, f: Field, hash: string, now: Time)
    ensures Changed(u, fs + [f], hash, now) ==
      Changed(u, fs, hash, now) + (if Differs(u, f, hash, now) then [f] else [])
    decreases |fs|
  {
    if fs == [] {
      assert [f][1..] == [];
    } else {
      assert (fs + [f])[1..] == fs[1..] + [f];
      ChangedAppend(u, fs[1..], f, hash, now);
    }
  }

  lemma {:induction false} ApplyDefaultsAppend(u: User, fs: seq<Field>, f: Field, hash: string, now: Time)
    ensures ApplyDefaults(u, fs + [f], hash, now) == AssignDefault(ApplyDefaults(u, fs, hash, now), f, hash, now)
    decreases |fs|
  {
    if fs == [] {
      assert [f][1..] == [];
    } else {
      assert (fs + [f])[1..] == fs[1..] + [f];
      ApplyDefaultsAppend(AssignDefault(u, fs[0], hash, now), fs[1..], f, hash, now);
    }
  }

  /** The admin row after the forward run, when one already existed. */
  function Reconciled(u: User, hash: string, now: Time): User
  {
    ApplyDefaults(u, UpdateFields(u, hash, now), hash, now)
  }

  /** Two rows that agree on every default field and on the other columns
      are equal. */
  lemma SameRow(a: User, b: User)
    requires forall g :: Current(a, g) == Current(b, g)
    requires a.username == b.username && a.resetToken == b.resetToken && a.resetExpiry == b.resetExpiry
    ensures a == b
  {
    assert Current(a, Email) == Current(b, Email);
    assert Current(a, FullName) == Current(b, FullName);
    assert Current(a, Telephone) == Current(b, Telephone);
    assert Current(a, Password) == Current(b, Password);
    assert Current(a, RoleKey) == Current(b, RoleKey);
    assert Current(a, CreatedAt) == Current(b, CreatedAt);
    assert Current(a, ModifiedAt) == Current(b, ModifiedAt);
    assert Current(a, DeletedAt) == Current(b, DeletedAt);
  }

  /** An existing admin ends with every default, except that a non-empty
      password is kept; its username and reset columns are untouched. */
  lemma ReconciledRow(u: User, hash: string, now: Time)
    ensures Reconciled(u, hash, now) ==
      User(AdminTelephone, AdminEmail, AdminFullName, u.username, Some(AdminRoleId), u.resetToken,
           u.resetExpiry, if u.password == "" then hash else u.password, now, None, Some(now))
  {
    var r := Reconciled(u, hash, now);
    var expected := User(AdminTelephone, AdminEmail, AdminFullName, u.username, Some(AdminRoleId), u.resetToken,
                         u.resetExpiry, if u.password == "" then hash else u.password, now, None, Some(now));
    forall g ensures Current(r, g) == Current(expected, g) {
    }
    SameRow(r, expected);
  }

  /** A non-empty password is never overwritten; an empty one is replaced. */
  lemma PasswordKept(u: User, hash: string, now: Time)
    ensures u.password != "" ==> Reconciled(u, hash, now).password == u.password
    ensures u.password == "" ==> Reconciled(u, hash, now).password == hash
  {
    ReconciledRow(u, hash, now);
  }

  /** A non-password field is in `update_fields` exactly when it differs
      from its default. */
  lemma UpdatedIffDiffers(u: User, f: Field, hash: string, now: Time)
    requires f != Password
    ensures f in UpdateFields(u, hash, now) <==> Current(u, f) != Default(f, hash, now)
  {
  }

  /** A later run, with a new clock reading, rewrites exactly `created_at`
      and `modified_at`; a run at the same instant changes nothing. The hash
      `make_password` produces is never empty. */
  lemma RerunRewritesTimestamps(u: User, hash: string, first: Time, second: Time)
    requires hash != ""
    ensures forall g :: g in UpdateFields(Reconciled(u, hash, first), hash, second) <==>
      first != second && g in {CreatedAt, ModifiedAt}
    ensures first == second ==> UpdateFields(Reconciled(u, hash, first), hash, second) == []
  {
    ReconciledRow(u, hash, first);
  }

  /** The row `get_or_create` inserts when there is no admin. */
  function NewAdmin(hash: string, now: Time): (u: User)
    ensures u.username == AdminUsername && u.email == AdminEmail && u.password == hash
    ensures u.role == Some(AdminRoleId) && u.deletedAt == None && u.createdAt == now
  {
    User(AdminTelephone, AdminEmail, AdminFullName, AdminUsername, Some(AdminRoleId), None, None, hash,
         now, None, Some(now))
  }

  /** A newly created admin already holds every default: a run right after
      it, at the same instant, updates nothing. */
  lemma NewAdminIsReconciled(hash: string, now: Time)
    requires hash != ""
    ensures UpdateFields(NewAdmin(hash, now), hash, now) == []
  {
  }

  /** A loaded `User` instance. */
  class UserObject {
    const id: int
    var fields: User

    constructor (id: int, fields: User)
      ensures this.id == id && this.fields == fields
    {
      this.id := id;
      this.fields := fields;
    }

    /** `setattr(user, field, value)` with the field's default. */
    method SetDefault(f: Field, hash: string, now: Time)
      modifies this
      ensures fields == AssignDefault(old(fields), f, hash, now)
    {
      fields := AssignDefault(fields, f, hash, now);
    }
  }

  /** The loop that fills `update_fields`. */
  method ComputeUpdates(u: User, hash: string, now: Time) returns (updates: seq<Field>)
    ensures updates == UpdateFields(u, hash, now)
  {
    var fields := DefaultFields;
    updates := [];
    var i := 0;
    assert fields[..i] == [];
    while i < |fields|
      invariant 0 <= i <= |fields| && fields == DefaultFields
      invariant updates == Changed(u, fields[..i], hash, now)
    {
      var f := fields[i];
      ChangedAppend(u, fields[..i], f, hash, now);
      assert fields[..i + 1] == fields[..i] + [f];
      if f == Password {
        if u.password == "" {
          updates := updates + [f];
        }
      } else if Current(u, f) != Default(f, hash, now) {
        updates := updates + [f];
      }
      i := i + 1;
    }
    assert fields[..|fields|] == fields;
  }

  /** The `setattr` loop over `update_fields`. */
  method ApplyUpdates(user: UserObject, updates: seq<Field>, hash: string, now: Time)
    modifies user
    ensures user.fields == ApplyDefaults(old(user.fields), updates, hash, now)
  {
    ghost var start := user.fields;
    var i := 0;
    while i < |updates|
      invariant 0 <= i <= |updates|
      invariant user.fields == ApplyDefaults(start, updates[..i], hash, now)
    {
      ApplyDefaultsAppend(start, updates[..i], updates[i], hash, now);
      assert updates[..i + 1] == updates[..i] + [updates[i]];
      user.SetDefault(updates[i], hash, now);
      i := i + 1;
    }
    assert updates[..|updates|] == updates;
  }

  /** The user part of the forward run succeeds: a new admin's email is
      free, and an existing admin's changed row keeps both unique columns. */
  predicate AdminFits(rows: map<int, User>, hash: string, now: Time)
  {
    if UsernameTaken(rows, AdminUsername) then
      forall id :: id in rows && rows[id].username == AdminUsername ==>
        UpdateFields(rows[id], hash, now) == [] || Fits(rows, id, Reconciled(rows[id], hash, now))
    else !EmailTaken(rows, AdminEmail)
  }

  /** `create_default_admin`. `now` is the migration's clock reading and
      `hash` the password hash of the default password. */
  method CreateDefaultAdmin(roles: RoleTable, users: UserTable, now: Time, hash: string) returns (ok: bool)
    requires roles.Valid() && users.Valid()
    modifies roles, users
    ensures roles.Valid() && users.Valid()
    ensures ok <==> RolesFit(old(roles.rows)) && AdminFits(old(users.rows), hash, now)
    ensures !ok ==> roles.rows == old(roles.rows) && users.rows == old(users.rows) && users.nextId == old(users.nextId)
    ensures ok ==> roles.rows == RolesAfter(old(roles.rows), |RoleSeeds|, now)
    ensures ok && !UsernameTaken(old(users.rows), AdminUsername) ==>
      && old(users.nextId) !in old(users.rows)
      && users.rows == old(users.rows)[old(users.nextId) := NewAdmin(hash, now)]
    ensures ok && UsernameTaken(old(users.rows), AdminUsername) ==> users.nextId == old(users.nextId)
    ensures ok ==> forall id :: id in old(users.rows) && old(users.rows)[id].username == AdminUsername ==>
      && users.rows == old(users.rows)[id := Reconciled(old(users.rows)[id], hash, now)]
      && (UpdateFields(old(users.rows)[id], hash, now) == [] ==> users.rows == old(users.rows))
  {
    var roleSnapshot := roles.rows;
    ok := SeedRoles(roles, now);
    if !ok {
      roles.rows := roleSnapshot;
      return;
    }
    if id :| id in users.rows && users.rows[id].username == AdminUsername {
      var user := new UserObject(id, users.rows[id]);
      var updates := ComputeUpdates(user.fields, hash, now);
      if updates != [] {
        ApplyUpdates(user, updates, hash, now);
        ok := users.Update(id, user.fields);
        if !ok {
          roles.rows := roleSnapshot;
          return;
        }
      }
    } else {
      var created := users.Insert(NewAdmin(hash, now));
      if created.Failure? {
        roles.rows := roleSnapshot;
        return false;
      }
    }
  }

  // ---------------------------------------------------------------------
  // The reverse

  /** `on_delete=SET_NULL` of `User.role` when the roles in `gone` are deleted. */
  function ClearRole(u: User, gone: set<int>): (r: User)
    ensures u.role.Some? && u.role.value in gone ==> r == u.(role := None)
    ensures !(u.role.Some? && u.role.value in gone) ==> r == u
  {
    if u.role.Some? && u.role.value in gone then u.(role := None) else u
  }

  /** `tbl_user_roles` keys and `(user, role)` pairs are distinct. */
  ghost predicate LinksDistinct(links: seq<UserRole>)
  {
    forall i, j :: 0 <= i < j < |links| ==>
      links[i].id != links[j].id && (links[i].user, links[i].role) != (links[j].user, links[j].role)
  }

  /** The user-role rows that survive deleting the users in `users` and the
      roles in `gone`: both foreign keys cascade. */
  function RemainingLinks(links: seq<UserRole>, users: set<int>, gone: set<int>): (r: seq<UserRole>)
    ensures forall l :: l in r <==> l in links && l.user !in users && l.role !in gone
    ensures |r| <= |links|
    ensures LinksDistinct(links) ==> LinksDistinct(r)
  {
    if links == [] then []
    else
      var rest := RemainingLinks(links[1..], users, gone);
      if links[0].user !in users && links[0].role !in gone then
        assert LinksDistinct(links) ==> forall l :: l in rest ==>
          l.id != links[0].id && (l.user, l.role) != (links[0].user, links[0].role)
        by {
          if LinksDistinct(links) {
            forall l | l in rest ensures l.id != links[0].id && (l.user, l.role) != (links[0].user, links[0].role) {
              var j :| 0 <= j < |links[1..]| && links[1..][j] == l;
              assert links[j + 1] == l;
            }
          }
        }
        [links[0]] + rest
      else rest
  }

  /** The keys of the users named `admin`. */
  function AdminKeys(rows: map<int, User>): (r: set<int>)
    ensures forall k :: k in r <==> k in rows && rows[k].username == AdminUsername
  {
    set k | k in rows && rows[k].username == AdminUsername
  }

  /** The users after the reverse: the admin is gone and every user of a
      deleted role has no role. */
  function RevertedUsers(rows: map<int, User>): (r: map<int, User>)
    ensures forall k :: k in r <==> k in rows && rows[k].username != AdminUsername
    ensures forall k :: k in r ==> r[k] == ClearRole(rows[k], {1, 2, 3})
    ensures UniqueUsers(rows) ==> UniqueUsers(r)
  {
    map k | k in rows && rows[k].username != AdminUsername :: ClearRole(rows[k], {1, 2, 3})
  }

  /** The roles after the reverse: roles 1 to 3 are gone. */
  function RevertedRoles(rows: map<int, Role>): (r: map<int, Role>)
    ensures forall k :: k in r <==> k in rows && k !in {1, 2, 3}
    ensures forall k :: k in r ==> r[k] == rows[k]
  {
    map k | k in rows && k !in {1, 2, 3} :: rows[k]
  }

  /** `reverse_code`: delete the admin if there is one (its absence is not an
      error), then roles 1 to 3. */
  method ReverseDefaultAdmin(users: UserTable, roles: RoleTable, links: UserRoleTable)
    requires users.Valid() && roles.Valid() && links.Valid()
    modifies users, roles, links
    ensures users.Valid() && roles.Valid() && links.Valid()
    ensures users.rows == RevertedUsers(old(users.rows)) && users.nextId == old(users.nextId)
    ensures roles.rows == RevertedRoles(old(roles.rows))
    ensures links.rows == RemainingLinks(old(links.rows), AdminKeys(old(users.rows)), {1, 2, 3})
    ensures links.nextId == old(links.nextId)
  {
    links.rows := RemainingLinks(links.rows, AdminKeys(users.rows), {1, 2, 3});
    users.rows := RevertedUsers(users.rows);
    roles.rows := RevertedRoles(roles.rows);
  }

  /** The cascades leave no dangling foreign key: when the account tables
      were consistent before the reverse, they are after it. */
  lemma ReverseKeepsLinks(users: map<int, User>, roles: map<int, Role>, links: seq<UserRole>)
    requires Linked(users, roles, links)
    ensures Linked(RevertedUsers(users), RevertedRoles(roles), RemainingLinks(links, AdminKeys(users), {1, 2, 3}))
  {
    var remaining := RemainingLinks(links, AdminKeys(users), {1, 2, 3});
    forall i | 0 <= i < |remaining|
      ensures remaining[i].user in RevertedUsers(users) && remaining[i].role in RevertedRoles(roles)
    {
      assert remaining[i] in remaining;
      var j :| 0 <= j < |links| && links[j] == remaining[i];
    }
  }
}
