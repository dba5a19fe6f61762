/** `MyTokenObtainPairSerializer.get_token`: the base token's claims, then
    `roles`, `username`, `user_id` and `full_name` written one after the
    other. `roles` lists the role names of the user's user-role rows that are
    not soft-deleted, in the order the table returns them. */
module TokenSerializer {

  import opened Common
  import opened Json
  import opened AccountModels
  import AdminPermission

  /** A user-role row `user.userrole_set.filter(deleted_at__isnull=True)` returns. */
  predicate ActiveLink(link: UserRole, user: int)
  {
    link.user == user && link.deletedAt == None
  }

  /** Every row's role exists: the foreign key the database enforces. */
  predicate RolesResolve(links: seq<UserRole>, roles: map<int, Role>)
  {
    forall i :: 0 <= i < |links| ==> links[i].role in roles
  }

  /** `[ur.role.name for ur in user.userrole_set.filter(deleted_at__isnull=True)]`. */
  function ActiveRoleNames(links: seq<UserRole>, user: int, roles: map<int, Role>): (names: seq<string>)
    requires RolesResolve(links, roles)
    ensures |names| <= |links|
  {
    if links == [] then []
    else
      (if ActiveLink(links[0], user) then [roles[links[0].role].name] else [])
      + ActiveRoleNames(links[1..], user, roles)
  }

  /** The list distributes over concatenation of the rows. */
  lemma {:induction false} ActiveRoleNamesAppend(a: seq<UserRole>, b: seq<UserRole>, user: int, roles: map<int, Role>)
    requires RolesResolve(a, roles) && RolesResolve(b, roles)
    ensures RolesResolve(a + b, roles)
    ensures ActiveRoleNames(a + b, user, roles) == ActiveRoleNames(a, user, roles) + ActiveRoleNames(b, user, roles)
    decreases |a|
  {
    assert RolesResolve(a + b, roles) by {
      forall i | 0 <= i < |a + b| ensures (a + b)[i].role in roles {
        if i >= |a| {
          assert (a + b)[i] == b[i - |a|];
        }
      }
    }
    if a != [] {
      assert (a + b)[1..] == a[1..] + b;
      assert RolesResolve(a[1..], roles);
      ActiveRoleNamesAppend(a[1..], b, user, roles);
    } else {
      assert a + b == b;
    }
  }

  /** A name is listed exactly when some live row of the user links a role
      carrying it. */
  lemma {:induction false} ActiveRoleNamesMembership(links: seq<UserRole>, user: int, roles: map<int, Role>, name: string)
    requires RolesResolve(links, roles)
    ensures name in ActiveRoleNames(links, user, roles) <==>
      exists i :: 0 <= i < |links| && ActiveLink(links[i], user) && roles[links[i].role].name == name
    decreases |links|
  {
    if links != [] {
      assert RolesResolve(links[1..], roles);
      ActiveRoleNamesMembership(links[1..], user, roles, name);
      if exists i :: 0 <= i < |links| && ActiveLink(links[i], user) && roles[links[i].role].name == name {
        var i :| 0 <= i < |links| && ActiveLink(links[i], user) && roles[links[i].role].name == name;
        if i > 0 {
          assert links[1..][i - 1] == links[i];
        }
      }
      if exists i :: 0 <= i < |links[1..]| && ActiveLink(links[1..][i], user) && roles[links[1..][i].role].name == name {
        var i :| 0 <= i < |links[1..]| && ActiveLink(links[1..][i], user) && roles[links[1..][i].role].name == name;
        assert links[i + 1] == links[1..][i];
      }
    }
  }

  /** A soft-deleted user-role row contributes nothing: the list is the one
      computed without it. */
  lemma DeletedLinkIgnored(links: seq<UserRole>, i: int, user: int, roles: map<int, Role>)
    requires RolesResolve(links, roles)
    requires 0 <= i < |links| && links[i].deletedAt.Some?
    ensures RolesResolve(links[..i] + links[i + 1..], roles)
    ensures ActiveRoleNames(links, user, roles) == ActiveRoleNames(links[..i] + links[i + 1..], user, roles)
  {
    assert links == links[..i] + ([links[i]] + links[i + 1..]);
    assert RolesResolve(links[..i], roles);
    assert RolesResolve(links[i + 1..], roles);
    assert RolesResolve([links[i]] + links[i + 1..], roles);
    ActiveRoleNamesAppend(links[..i], [links[i]] + links[i + 1..], user, roles);
    ActiveRoleNamesAppend([links[i]], links[i + 1..], user, roles);
    ActiveRoleNamesAppend(links[..i], links[i + 1..], user, roles);
    assert ActiveRoleNames([links[i]], user, roles) == [] by {
      assert [links[i]][1..] == [];
    }
  }

  /** Only the user-role row's own `deleted_at` is read: soft-deleting the
      role itself leaves its name in the list. */
  lemma {:induction false} SoftDeletedRoleStillListed(links: seq<UserRole>, user: int, roles: map<int, Role>,
                                                     r: int, now: Time)
    requires RolesResolve(links, roles) && r in roles
    ensures RolesResolve(links, roles[r := roles[r].(deletedAt := Some(now))])
    ensures ActiveRoleNames(links, user, roles[r := roles[r].(deletedAt := Some(now))])
         == ActiveRoleNames(links, user, roles)
    decreases |links|
  {
    if links != [] {
      assert RolesResolve(links[1..], roles);
      SoftDeletedRoleStillListed(links[1..], user, roles, r, now);
    }
  }

  /** The list as a JSON list of strings. */
  function StrList(names: seq<string>): (v: JValue)
    ensures v.JList? && |v.items| == |names|
    ensures forall i :: 0 <= i < |names| ==> v.items[i] == JStr(names[i])
  {
    JList(seq(|names|, i requires 0 <= i < |names| => JStr(names[i])))
  }

  /** The claims `get_token` returns for user `id` with row `u`, on top of
      the base token's claims `base`. */
  function Claims(base: Object, id: int, u: User, names: seq<string>): (c: Object)
    ensures c.Keys == base.Keys + {"roles", "username", "user_id", "full_name"}
    ensures c["roles"] == StrList(names)
    ensures c["username"] == JStr(u.username)
    ensures c["user_id"] == JNum(id)
    ensures c["full_name"] == JStr(u.fullName)
    ensures forall k :: k in base && k !in {"roles", "username", "user_id", "full_name"} ==> c[k] == base[k]
  {
    base["roles" := StrList(names)]["username" := JStr(u.username)]["user_id" := JNum(id)]
        ["full_name" := JStr(u.fullName)]
  }

  /** A token: the mapping of claims `get_token` writes into. */
  class Token {
    var claims: Object

    constructor (base: Object)
      ensures claims == base
    {
      claims := base;
    }

    /** `token[key] = value`. */
    method Set(key: string, value: JValue)
      modifies this
      ensures claims == old(claims)[key := value]
    {
      claims := claims[key := value];
    }
  }

  /** `get_token(user)`: `base` stands for the claims `super().get_token`
      produces, the signing of which is not part of this model. */
  method GetToken(base: Object, id: int, u: User, links: seq<UserRole>, roles: map<int, Role>)
    returns (token: Token)
    requires RolesResolve(links, roles)
    ensures fresh(token)
    ensures token.claims == Claims(base, id, u, ActiveRoleNames(links, id, roles))
  {
    token := new Token(base);
    var names := ActiveRoleNames(links, id, roles);
    token.Set("roles", StrList(names));
    token.Set("username", JStr(u.username));
    token.Set("user_id", JNum(id));
    token.Set("full_name", JStr(u.fullName));
  }

  /** Read by the admin check, a token from `get_token` whose base carries no
      `role` claim is an admin token exactly when one of the listed role
      names is "admin" in some letter case. */
  lemma AdminFromIssuedToken(base: Object, id: int, u: User, names: seq<string>)
    requires "role" !in base
    ensures AdminPermission.PayloadIsAdmin(Claims(base, id, u, names)) <==>
      exists i :: 0 <= i < |names| && IsAdminName(names[i])
  {
    var c := Claims(base, id, u, names);
    assert Get(c, "role") == JNull;
    var items := StrList(names).items;
    if exists i :: 0 <= i < |names| && IsAdminName(names[i]) {
      var i :| 0 <= i < |names| && IsAdminName(names[i]);
      assert StrIsAdmin(items[i]);
    }
    if exists i :: 0 <= i < |items| && StrIsAdmin(items[i]) {
      var i :| 0 <= i < |items| && StrIsAdmin(items[i]);
      assert IsAdminName(names[i]);
    }
  }
}
