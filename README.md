# tasker-backend accounts, projects and tasks, in Dafny

This project models the decision and state logic of the tasker-backend
Django/DRF service:

- user accounts and roles;
- projects and tasks with soft delete;
- JWT cookies and claims;
- the admin and task permissions;
- the three seed migrations.

Database tables are classes whose `rows` (a `map` from primary key to row, or
a `seq` where the table's order matters) the operations reassign. The
database's unique, `NOT NULL` and foreign-key constraints are checked where
a row is written. Their violations surface as `IntegrityError`, as Django
reports them.

Pure code (the permission predicates, queryset filters, claim construction
and response bodies) is modelled as functions with lemmas. Code that updates
state in place is modelled as methods whose `ensures` give the whole new state:

- the middleware's `META` update;
- `delete`/`restore`, which write one column;
- registration's two inserts;
- `set_cookie`/`delete_cookie`;
- the migrations' upsert loops, update-fields loop and `setattr` loop.

Modules follow the source files:

| module | file | source |
|---|---|---|
| `Common`, `Json` | common.dfy, json.dfy | Python truthiness, `dict.get`, `or`, ASCII `lower()` over a JSON-like value type |
| `AccountModels` | accounts_models.dfy | `apps/accounts/models.py` |
| `AdminPermission` | accounts_permissions.dfy | `apps/accounts/permissions.py` |
| `CookieMiddleware` | accounts_middleware.dfy | `apps/accounts/middleware.py` |
| `TokenSerializer` | accounts_serializers.dfy | `apps/accounts/serializers.py` |
| `AccountViews` | accounts_views.dfy | `apps/accounts/views.py` |
| `AdminSeed` | accounts_seed.dfy | `apps/accounts/migrations/0002_seed_default_admin.py` |
| `ProjectModels`, `ProjectViewSet` | projects_models.dfy, projects_viewsets.dfy | `apps/projects/models.py`, `apps/projects/viewsets.py` |
| `TaskModels`, `TaskViewSet`, `TaskPermission` | tasks_models.dfy, tasks_viewsets.dfy, tasks_permissions.dfy | `apps/tasks/models.py`, `apps/tasks/viewsets.py`, `apps/tasks/permissions.py` |
| `StatusModel` | status_model.dfy | `ProjectStatus` and `TaskStatus`, and the forward and reverse runs of both status seed migrations |
| `ProjectStatusSeed`, `TaskStatusSeed` | project_status_seed.dfy, task_status_seed.dfy | the reverse status migrations with their `SET_NULL` and `CASCADE` effects |
| `Listing` | listing.dfy | the default `-created_at` ordering of both list endpoints |

Foreign code becomes parameters:

- `make_password` is `hash`;
- `normalize_email` is `normalizeEmail`;
- each `timezone.now()` reading and the database's `Now()` is a `Time`;
- the claims the simplejwt base token carries are `base`. The admin check reads the access token, which simplejwt derives from this refresh token by copying every claim except the token type, expiry and token id, so the four claims `get_token` sets reach it unchanged.

The placement of `NULL` under `ORDER BY created_at DESC` depends on the
database engine. It is the parameter `nullsLast`.

Several discrepancies in the source are stated as lemmas rather than
smoothed over:

- **Role stores.** Registration records the requested role only in a
  `tbl_user_roles` row, and tokens list those rows' role names. The admin
  check reads the user's own `role` key, so a newly registered user is never
  an admin by its record (`AccountViews.RegisteredUserIsNotAdmin`).
- **Soft-deleted roles.** The token's `roles` list ignores whether a role is
  soft-deleted (`TokenSerializer.SoftDeletedRoleStillListed`). The admin check
  denies a soft-deleted role (`AdminPermission.SoftDeletedRoleDenied`).
- **Soft-deleted projects.** The task list filters on the project's creator
  only, so the tasks of a soft-deleted project stay listed
  (`TaskViewSet.DeletedProjectTasksListed`).
- **Superusers.** `User` declares `is_active`, `is_staff`, `is_superuser` and
  `last_login` as properties without setters. `create_superuser` always
  forwards `is_staff`, so the model constructor raises and no superuser is ever
  saved. The constructor raises `AttributeError` from Django 4.1 on; earlier
  versions raise `TypeError` for the same keyword. It also raises `TypeError`
  when a many-to-many keyword (`groups`, `user_permissions`) comes before
  `is_staff` (`AccountModels.SuperuserNeverInstantiated`,
  `AccountModels.CreateSuperuserAndSave`).
- **Partial registration.** A `role_id` that names no role fails the second
  insert after the user row is saved, and the user row stays. There is no
  transaction around the view (`AccountViews.Register`).
- **Logout.** `logout_view` is a plain Django view returning a DRF `Response`.
  Rendering it fails for want of a negotiated renderer, so the client gets a 500
  and neither cookie is deleted (`AccountViews.LogoutAsWritten`).
- **Status cascade.** Deleting a task status hard-deletes the tasks that use
  it, bypassing their soft delete (`TaskStatusSeed.CascadeHardDeletes`).

## Model

| member | source | states |
|---|---|---|
| Common.Lower | apps/accounts/permissions.py:20 | lower-casing keeps the length and maps each character, changing exactly the ASCII capitals |
| Common.LowerIdempotent | apps/accounts/permissions.py:20 | lower-casing an already lower-cased name changes nothing |
| Common.AdminNameCaseInsensitive | apps/accounts/permissions.py:20 | two names with the same lower-cased form get the same admin verdict |
| Common.AdminNameSpelling | apps/accounts/permissions.py:20 | the admin comparison accepts exactly the five-letter spellings of "admin" in any letter case |
| Json.Get | apps/accounts/permissions.py:35 | `dict.get` returns the stored value, or `None` for a missing key |
| Json.Or | apps/accounts/permissions.py:37 | Python `or` yields its left operand when that is truthy, otherwise its right one |
| Json.AnyAdmin | apps/accounts/permissions.py:45 | the `any(...)` over the `roles` list holds iff some element's `str` lower-cases to "admin" |
| AccountModels.IsActive | apps/accounts/models.py:47-48 | a user is active iff `deleted_at` is None |
| AccountModels.IsStaff | apps/accounts/models.py:50-51 | no user is staff, whatever its row holds |
| AccountModels.IsSuperuser | apps/accounts/models.py:53-54 | no user is a superuser, whatever its row holds |
| AccountModels.LastLogin | apps/accounts/models.py:44-45 | `last_login` is always None |
| AccountModels.ManagerErrorMessage | apps/accounts/models.py:9-12 | a missing username reads "Username is required" and a missing email "Email is required" |
| AccountModels.CreateUser | apps/accounts/models.py:8-16 | a falsy username is refused first, then a falsy email, and success iff both are truthy. On success the result carries the username, the normalised email, the hashed password and the extra keywords |
| AccountModels.SetDefault | apps/accounts/models.py:21-22 | `setdefault` adds the key with the default only when it is absent and keeps every existing entry |
| AccountModels.SuperuserExtra | apps/accounts/models.py:21-22 | `is_staff` and `is_superuser` default to true, a caller's value for either is kept, and all other keywords pass through |
| AccountModels.CreateSuperuser | apps/accounts/models.py:20-23 | the same refusals as `create_user`, and on success the forwarded keywords carry both flags |
| AccountModels.Instantiate | apps/accounts/models.py:14-17 | the model constructor raises `AttributeError` for a read-only property keyword, then `TypeError` for one that is not a column. A missing `created_at` makes the save fail `NOT NULL`. Otherwise the row holds the given username, email, hash, telephone and full name |
| AccountModels.SuperuserNeverInstantiated | apps/accounts/models.py:20-23 | whatever the arguments, a validated `create_superuser` call raises `AttributeError` in the model constructor |
| AccountModels.CreateAndSave | apps/accounts/models.py:8-18 | each failure (validation, constructor, or a username or email in use) leaves the table unchanged. Success inserts exactly one row, the constructed user, under a fresh key |
| AccountModels.CreateSuperuserAndSave | apps/accounts/models.py:20-23 | `create_superuser` either fails validation (username first) or raises `AttributeError`, and never changes the table |
| AccountModels.UserTable.Insert | apps/accounts/models.py:30-32 | an insert succeeds iff the username and email are both unused. It then adds exactly that row under the next key; otherwise it raises `IntegrityError` and changes nothing |
| AccountModels.UserTable.Update | apps/accounts/models.py:30-32 | an update succeeds iff no other row has the new username or email, and changes only that row |
| AccountModels.RoleTable.Put | apps/accounts/models.py:78 | a keyed upsert succeeds iff no other row has the name, and writes only that key |
| AccountModels.UserRoleTable.Insert | apps/accounts/models.py:91-103 | a link is added iff both foreign keys resolve and the `(user, role)` pair is new. It is appended with the next key |
| AdminPermission.RoleOf | apps/accounts/permissions.py:18 | the user's role is the row its `role` key resolves to, or none |
| AdminPermission.UserRoleIsAdmin | apps/accounts/permissions.py:16-23 | the user path allows iff the role exists, is not soft-deleted and its name lower-cases to "admin" |
| AdminPermission.RoleObjectIsAdmin | apps/accounts/permissions.py:35-38 | a dict `role` claim allows iff `role_name or name or ''` lower-cases to "admin" |
| AdminPermission.LegacyRolesAreAdmin | apps/accounts/permissions.py:43-49 | the `roles` claim (`[]` when falsy) allows as a list with an admin entry or as an admin string, and denies otherwise |
| AdminPermission.PayloadIsAdmin | apps/accounts/permissions.py:34-49 | a dict or string `role` claim decides alone; otherwise `roles` decides |
| AdminPermission.HasPermission | apps/accounts/permissions.py:13-49 | an authenticated user is judged by its role, else a token by its payload, else denied |
| AdminPermission.Payload | apps/accounts/permissions.py:28-32 | a dict token is its own payload, and a token object's payload is `payload` or `{}` |
| AdminPermission.AuthenticatedIgnoresToken | apps/accounts/permissions.py:16-23 | for an authenticated user the decision is the same whatever token accompanies the request |
| AdminPermission.AuthenticatedDecision | apps/accounts/permissions.py:16-23 | an authenticated user is allowed iff its role exists, is not soft-deleted and is named "admin" in any case |
| AdminPermission.SoftDeletedRoleDenied | apps/accounts/permissions.py:19-21 | a soft-deleted role denies even when named admin, and the same role undeleted allows |
| AdminPermission.TokenFallback | apps/accounts/permissions.py:25-49 | without an authenticated user, no token denies; otherwise the decision is the payload's |
| AdminPermission.TokenObjectReadsPayload | apps/accounts/permissions.py:29-32 | a token object is judged by its payload, and one with no payload is denied |
| AdminPermission.StructuredRoleDecides | apps/accounts/permissions.py:35-38 | a dict `role` claim decides by `role_name or name or ''`, whatever `roles` holds |
| AdminPermission.StringRoleDecides | apps/accounts/permissions.py:39-40 | a string `role` claim decides by its lower-cased value alone, whatever `roles` holds |
| AdminPermission.LegacyRolesFallback | apps/accounts/permissions.py:43-49 | only when `role` is neither dict nor string is `roles` read. A list allows iff some entry is admin, a string allows iff it is admin, and anything else denies |
| AdminPermission.StructuredRoleExamples | apps/accounts/permissions.py:36-38 | `role_name` wins over `name`, and `name` is read only when `role_name` is falsy |
| AdminPermission.EmptyStringRoleExample | apps/accounts/permissions.py:39-40 | an empty string `role` still short-circuits past an admin `roles` list |
| AdminPermission.LegacyRolesExamples | apps/accounts/permissions.py:43-47 | mixed-case admin entries and an admin string allow; nested lists and numbers deny |
| CookieMiddleware.Rewritten | apps/accounts/middleware.py:14-19 | without the header, a non-empty `access_token` cookie adds `HTTP_AUTHORIZATION`; otherwise `META` stays |
| CookieMiddleware.ExistingHeaderKept | apps/accounts/middleware.py:16 | an existing `HTTP_AUTHORIZATION` entry is never modified |
| CookieMiddleware.HeaderFromCookie | apps/accounts/middleware.py:17-19 | without the header, a non-empty `access_token` cookie yields exactly `Bearer <token>` (the form of section 2.1 of RFC 6750) |
| CookieMiddleware.NoCookieNoChange | apps/accounts/middleware.py:17-18 | without the header, a missing or empty cookie leaves `META` unchanged |
| CookieMiddleware.OnlyAuthorizationChanges | apps/accounts/middleware.py:16-19 | no `META` key other than `HTTP_AUTHORIZATION` appears, disappears or changes |
| CookieMiddleware.RewriteIdempotent | apps/accounts/middleware.py:16-19 | rewriting twice gives the same `META` as rewriting once |
| CookieMiddleware.CookieToHeaderJWTMiddleware.constructor | apps/accounts/middleware.py:11-12 | a new middleware has passed no request on yet |
| CookieMiddleware.CookieToHeaderJWTMiddleware.Call | apps/accounts/middleware.py:14-20 | `META` becomes the rewritten map and the cookies are unchanged. The same request is handed to `get_response` exactly once |
| TaskPermission.HasObjectPermission | apps/tasks/permissions.py:5-9 | the intended check: a safe method, the project creator or a project member is allowed |
| TaskPermission.SafeMethodsAllowed | apps/tasks/permissions.py:6-7 | GET, HEAD and OPTIONS are allowed whatever the user and object |
| TaskPermission.CreatorAllowed | apps/tasks/permissions.py:9 | for any other method the project creator is allowed, member or not |
| TaskPermission.NonCreatorNeedsMembership | apps/tasks/permissions.py:9 | for any other method a non-creator is allowed iff in the project's member set |
| TaskPermission.MethodNamesCaseSensitive | apps/tasks/permissions.py:6 | method names compare exactly, so a lower-case `get` is not safe |
| TaskPermission.HasObjectPermissionAsWritten | apps/tasks/permissions.py:6-9 | as written, the check decides iff the method is safe or the caller created the project, and every decided outcome is an allow |
| TaskPermission.NonCreatorWriteRaises | apps/tasks/permissions.py:9 | as written, every call for an unsafe method by a non-creator raises `AttributeError` on `members` |
| TaskPermission.PutByNonCreatorRaises | apps/tasks/permissions.py:9 | a direct `has_object_permission` call for PUT by a member who is not the creator raises as written and is allowed as intended |
| TaskPermission.AsWrittenAgreesWhereDecided | apps/tasks/permissions.py:5-9 | wherever the written check decides, the intended check decides the same |
| StatusModel.StatusTable.UpdateOrCreate | apps/projects/migrations/0002_seed_project_statuses.py:11-18 | two or more rows with the name raise `MultipleObjectsReturned` and change nothing. One is overwritten with the defaults; none means a new row under the next key |
| StatusModel.StatusTable.Seed | apps/projects/migrations/0002_seed_project_statuses.py:5-18 | the run succeeds iff no seeded name has two rows. It then leaves each seeded name on exactly one row with the run's values and rows with other names untouched. It adds rows only for names that had none; a failure restores the table. The task status migration (`apps/tasks/migrations/0002_seed_task_statuses.py`) runs the same code |
| StatusModel.StatusTable.DeleteSeeded | apps/projects/migrations/0002_seed_project_statuses.py:21-24 | the reverse deletes exactly the rows named "todo", "in progress" or "completed", in the task status table too |
| StatusModel.SeededOnce | apps/projects/migrations/0002_seed_project_statuses.py:10-18 | exactly one row has the name, and it has the run's values |
| StatusModel.SeedTwice | apps/projects/migrations/0002_seed_project_statuses.py:10-11 | a second forward run succeeds iff the first did and adds no row, so no name is duplicated |
| Listing.MayPrecede | apps/projects/models.py:50 | under `created_at DESC` a later stamp comes first, and `NULL` goes last or first as the engine places it |
| Listing.CreatedStamps | apps/projects/models.py:50 | the ordering key of every row is its `created_at`, for exactly the table's keys |
| Listing.Ordered | apps/projects/models.py:50 | a listing holds exactly the given rows, each once, newest `created_at` first |
| Listing.MayPrecedeTotal | apps/projects/models.py:50 | any two `created_at` values are comparable under the `-created_at` ordering, `NULL` included |
| Listing.MayPrecedeTransitive | apps/projects/models.py:50 | the `-created_at` ordering is transitive |
| ProjectModels.SoftDeleted | apps/projects/models.py:57-59 | delete sets `deleted_at` to a timestamp and changes no other field |
| ProjectModels.Restored | apps/projects/models.py:61-63 | restore clears `deleted_at` and changes no other field |
| ProjectModels.RestoreUndoesDelete | apps/projects/models.py:57-63 | delete then restore gives the row back with `deleted_at` None, exactly the original for a live project |
| ProjectModels.ProjectTable.Insert | apps/projects/models.py:23 | a new project is stored under the next auto-increment key and nothing else changes |
| ProjectModels.ProjectTable.SaveDeletedAt | apps/projects/models.py:59 | `save(update_fields=['deleted_at'])` writes that column of that row only, and fails iff the row is gone |
| ProjectModels.ProjectObject.Delete | apps/projects/models.py:57-59 | the instance and its row are soft-deleted and the row stays, even for a stale instance |
| ProjectModels.ProjectObject.Restore | apps/projects/models.py:61-63 | the instance and its row get `deleted_at` None and nothing else changes |
| TaskModels.SoftDeleted | apps/tasks/models.py:66-68 | delete sets `deleted_at` and keeps title, status, assignee, project and every other field |
| TaskModels.TaskTable.Insert | apps/tasks/models.py:26 | a new task is stored under the next auto-increment key |
| TaskModels.TaskTable.SaveDeletedAt | apps/tasks/models.py:68 | writes the `deleted_at` column of that row only, and fails iff the row is gone |
| TaskModels.TaskObject.Delete | apps/tasks/models.py:66-68 | the task's row is soft-deleted in place and stays in the table |
| ProjectViewSet.VisibleProjects | apps/projects/viewsets.py:13-14 | the list is drawn from the table's rows |
| ProjectViewSet.ListsDisjoint | apps/projects/viewsets.py:14 | no project is in two users' lists |
| ProjectViewSet.DeleteHides | apps/projects/models.py:57-59 | deleting a project removes it from every list and changes nothing else in any list |
| ProjectViewSet.RestoreShows | apps/projects/models.py:61-63 | restoring puts the project back in its creator's list only |
| ProjectViewSet.DeleteRestoreRoundTrip | apps/projects/models.py:57-63 | delete then restore of a live project leaves every list as before |
| ProjectViewSet.ProjectList | apps/projects/viewsets.py:24 | the response lists exactly the live projects of the user, each once, `-created_at` order |
| ProjectViewSet.NewProject | apps/projects/viewsets.py:16-17 | the created row is owned by the requesting user, is live and carries the request's fields |
| ProjectViewSet.PerformCreate | apps/projects/viewsets.py:16-17 | creation inserts exactly that row under a fresh key |
| ProjectViewSet.CreatedProjectListed | apps/projects/viewsets.py:14-17 | a created project joins its creator's list and no other |
| TaskViewSet.VisibleTasks | apps/tasks/viewsets.py:13-17 | the list is drawn from the table's rows |
| TaskViewSet.ListsDisjoint | apps/tasks/viewsets.py:16 | no task is in two users' lists |
| TaskViewSet.DeleteHides | apps/tasks/models.py:66-68 | deleting a task removes it from every list and changes nothing else |
| TaskViewSet.DeletedProjectTasksListed | apps/tasks/viewsets.py:14-16 | soft-deleting a project leaves its tasks listed |
| TaskViewSet.TaskList | apps/tasks/viewsets.py:26 | the response lists exactly the live tasks of projects the user created, each once, `-created_at` order |
| TaskViewSet.ObjectCheckNeverRaises | apps/tasks/viewsets.py:13-17 | every task the viewset can look up belongs to a project the caller created, so the object check as written allows it without reading `members` |
| TaskViewSet.InputKeywords | apps/tasks/viewsets.py:20 | the validated data names only task columns, title, description and status always |
| TaskViewSet.UnexpectedKeywords | apps/tasks/models.py:53-54 | a keyword is unexpected iff it is not a `tbl_tasks` column |
| TaskViewSet.CreatedByAlwaysRejected | apps/tasks/viewsets.py:20 | for every request, adding `created_by` makes exactly that keyword unexpected |
| TaskViewSet.NewTask | apps/tasks/models.py:34-52 | a created task is live, has a status and a project, and has no assignee |
| TaskViewSet.SerializerSave | apps/tasks/models.py:47-52 | an unexpected keyword raises `TypeError`, and a missing project fails `NOT NULL` with `IntegrityError`, both with no row written; otherwise exactly one row is inserted |
| TaskViewSet.PerformCreateAsWritten | apps/tasks/viewsets.py:19-20 | as written every create raises `TypeError` for `created_by` and saves nothing |
| TaskViewSet.PerformCreateWithoutCreatedBy | apps/tasks/viewsets.py:19-20 | dropping `created_by` alone still fails: with `project` read-only the insert raises `IntegrityError` and saves nothing |
| TaskViewSet.PerformCreate | apps/tasks/viewsets.py:19-20 | as intended, saving with the request's project and no `created_by`, the task is inserted under a fresh key in that project |
| TaskViewSet.CreatedTaskListed | apps/tasks/viewsets.py:13-17 | a created task joins the list of its project's creator and no other |
| TokenSerializer.ActiveRoleNames | apps/accounts/serializers.py:11 | the list has at most one name per user-role row |
| TokenSerializer.ActiveRoleNamesMembership | apps/accounts/serializers.py:11 | a name is listed iff some live row of the user links a role with that name |
| TokenSerializer.DeletedLinkIgnored | apps/accounts/serializers.py:11 | a soft-deleted user-role row contributes nothing, and the list keeps its order without it |
| TokenSerializer.SoftDeletedRoleStillListed | apps/accounts/serializers.py:11 | soft-deleting the role itself leaves its name in the list |
| TokenSerializer.StrList | apps/accounts/serializers.py:12 | the claim is a list of the names as strings, in order |
| TokenSerializer.Claims | apps/accounts/serializers.py:9-16 | the four claims equal the user's fields and role list, overriding the base token's. Every other base claim is kept |
| TokenSerializer.Token.Set | apps/accounts/serializers.py:12-15 | a claim assignment changes that key only |
| TokenSerializer.GetToken | apps/accounts/serializers.py:8-16 | the token issued holds exactly those claims |
| TokenSerializer.AdminFromIssuedToken | apps/accounts/serializers.py:11-12 | read by the admin check, an issued token with no `role` claim is admin iff one listed role name is admin in some case |
| AccountViews.ErrorReply | apps/accounts/views.py:23 | an error reply is a 400 with the message under `error` |
| AccountViews.AllFilled | apps/accounts/views.py:22 | `all([...])` holds iff username, email, full name and password are all truthy |
| AccountViews.RegisterCheck | apps/accounts/views.py:22-29 | "All fields are required" iff a required field is falsy. "Username already exists" iff they are filled and the username is taken. "Email already exists" iff only the email is taken. No error otherwise |
| AccountViews.DefaultRoleId | apps/accounts/views.py:43-45 | a missing or falsy `role_id` becomes 3, and any other is kept |
| AccountViews.NewUser | apps/accounts/views.py:32-39 | the saved row has the given fields, telephone defaulting to `''`, the password's hash, no role and the creation time |
| AccountViews.CreatedReply | apps/accounts/views.py:53-61 | the 201 reply echoes the key, username, email and full name |
| AccountViews.Register | apps/accounts/views.py:15-61 | a failed check replies 400 and writes nothing. Otherwise exactly one user row is inserted. With an existing role, one user-role row for it is appended and the reply is 201 |
| AccountViews.RegisteredUserIsNotAdmin | apps/accounts/views.py:47-51 | a registered user is never admin by its own record, whatever `role_id` and token |
| AccountViews.HttpResponse.SetCookie | apps/accounts/views.py:95 | `set_cookie` records that cookie only and leaves status and body |
| AccountViews.HttpResponse.DeleteCookie | apps/accounts/views.py:103 | `delete_cookie` replaces the cookie with an empty one of `Max-Age=0` |
| AccountViews.HasToken | apps/accounts/views.py:94-97 | `tokens.get(key)` is a non-empty string |
| AccountViews.TokenValue | apps/accounts/views.py:82-83 | the body shows a token or null |
| AccountViews.LoginRoles | apps/accounts/views.py:75-77 | no user gives no roles; otherwise the list is the token's role list, in order with repeats, and a name is listed iff a live user-role row of the user carries it |
| AccountViews.UserSummary | apps/accounts/views.py:85-91 | the `user` object carries the user's fields, all null without a user, and the role list |
| AccountViews.LoginBody | apps/accounts/views.py:79-92 | the login body carries the message, both tokens and the user summary |
| AccountViews.LoginCookies | apps/accounts/views.py:94-97 | each cookie is set iff its token is non-empty. Access is 3600 s and refresh 604800 s, both HttpOnly and SameSite Lax (sections 4.1.2.2 and 4.1.2.6 of RFC 6265) |
| AccountViews.Login | apps/accounts/views.py:66-98 | the login reply is a 200 with that body and exactly those cookies |
| AccountViews.Logout | apps/accounts/views.py:101-105 | the reply the view builds is a 200 with its message that deletes both token cookies |
| AccountViews.Deliver | apps/accounts/views.py:101-105 | a reply from a DRF view reaches the client as built; a DRF `Response` from a plain Django view fails to render and becomes a 500 with no cookies |
| AccountViews.LogoutAsWritten | apps/accounts/views.py:101-105 | as written the client gets a 500 and neither token cookie is deleted |
| AccountViews.LogoutAsApiView | apps/accounts/views.py:101-105 | as a DRF view the client gets the 200 reply and both cookie deletions |
| AccountViews.LogoutOverridesLogin | apps/accounts/views.py:101-105 | after a login and a delivered logout both token cookies are expired |
| AccountViews.LogoutAsWrittenKeepsSession | apps/accounts/views.py:101-105 | as written the access cookie a login set survives the logout |
| AdminSeed.RolesAfter | apps/accounts/migrations/0002_seed_default_admin.py:19-29 | the role table after the first `i` keyed upserts |
| AdminSeed.RolesAfterShape | apps/accounts/migrations/0002_seed_default_admin.py:19-29 | the upserts give each seeded key its row and leave every other key as it was |
| AdminSeed.PutFits | apps/accounts/migrations/0002_seed_default_admin.py:20-28 | each upsert is refused iff a row outside the keys seeded so far already has its name |
| AdminSeed.SeededRoles | apps/accounts/migrations/0002_seed_default_admin.py:12-29 | after the run roles 1, 2 and 3 are Admin, Manager and User with `deleted_at` None, and every other role is untouched |
| AdminSeed.SeedRoles | apps/accounts/migrations/0002_seed_default_admin.py:19-29 | the role loop succeeds iff every upsert fits, and leaves the seeded rows |
| AdminSeed.AssignDefault | apps/accounts/migrations/0002_seed_default_admin.py:62 | `setattr` gives one field its default and changes no other |
| AdminSeed.Differs | apps/accounts/migrations/0002_seed_default_admin.py:50-58 | the password is selected when empty, any other field when it differs from its default |
| AdminSeed.Changed | apps/accounts/migrations/0002_seed_default_admin.py:50-58 | the selected fields are at most the fields offered |
| AdminSeed.ChangedMembers | apps/accounts/migrations/0002_seed_default_admin.py:50-58 | a field is selected iff offered and picked by the rule, and nothing is selected when nothing differs |
| AdminSeed.UpdateFields | apps/accounts/migrations/0002_seed_default_admin.py:50-58 | a field is in `update_fields` iff it differs from its default, or for the password iff it is empty |
| AdminSeed.ApplyDefaults | apps/accounts/migrations/0002_seed_default_admin.py:61-62 | exactly the listed fields take their defaults, and the username and reset columns are untouched |
| AdminSeed.ReconciledRow | apps/accounts/migrations/0002_seed_default_admin.py:49-63 | an existing admin ends with every default, keeping a non-empty password, its username and reset columns |
| AdminSeed.PasswordKept | apps/accounts/migrations/0002_seed_default_admin.py:53-56 | a non-empty password is never overwritten, and an empty one is replaced |
| AdminSeed.UpdatedIffDiffers | apps/accounts/migrations/0002_seed_default_admin.py:57-58 | a non-password field is updated iff it differs from its default |
| AdminSeed.RerunRewritesTimestamps | apps/accounts/migrations/0002_seed_default_admin.py:33-58 | a later run rewrites exactly `created_at` and `modified_at`, and a run at the same instant updates nothing |
| AdminSeed.NewAdmin | apps/accounts/migrations/0002_seed_default_admin.py:33-47 | a created admin has the defaults and role 1 |
| AdminSeed.NewAdminIsReconciled | apps/accounts/migrations/0002_seed_default_admin.py:33-47 | a just-created admin needs no update at the same instant |
| AdminSeed.UserObject.SetDefault | apps/accounts/migrations/0002_seed_default_admin.py:62 | the instance's field takes its default |
| AdminSeed.ComputeUpdates | apps/accounts/migrations/0002_seed_default_admin.py:50-58 | the loop collects exactly `update_fields`, in order |
| AdminSeed.ApplyUpdates | apps/accounts/migrations/0002_seed_default_admin.py:60-62 | the `setattr` loop leaves the instance with exactly those defaults applied |
| AdminSeed.CreateDefaultAdmin | apps/accounts/migrations/0002_seed_default_admin.py:6-63 | succeeds iff the role upserts and the admin write fit. A failure restores both tables. Success leaves the seeded roles and either a new admin with the defaults or the existing admin reconciled under its own key with the key counter unchanged, and no write when nothing differs |
| AdminSeed.ClearRole | apps/accounts/models.py:34 | a user of a deleted role loses its role key and is otherwise unchanged |
| AdminSeed.RemainingLinks | apps/accounts/models.py:93-94 | the user-role rows of deleted users and roles go, the rest stay, and keys and pairs stay distinct |
| AdminSeed.AdminKeys | apps/accounts/migrations/0002_seed_default_admin.py:71 | the keys of the users named `admin` |
| AdminSeed.RevertedUsers | apps/accounts/migrations/0002_seed_default_admin.py:70-76 | the admin is gone, users of roles 1 to 3 lose their role, and uniqueness is kept |
| AdminSeed.RevertedRoles | apps/accounts/migrations/0002_seed_default_admin.py:76 | exactly roles 1 to 3 are gone |
| AdminSeed.ReverseDefaultAdmin | apps/accounts/migrations/0002_seed_default_admin.py:66-76 | the reverse deletes the admin if present and roles 1 to 3, with the `SET_NULL` and `CASCADE` effects on the account tables |
| AdminSeed.ReverseKeepsLinks | apps/accounts/migrations/0002_seed_default_admin.py:66-76 | consistent account tables stay consistent: no foreign key dangles after the reverse |
| ProjectStatusSeed.ClearStatus | apps/projects/models.py:32-38 | a project of a deleted status loses its status key and is otherwise unchanged |
| ProjectStatusSeed.ClearedProjects | apps/projects/models.py:32-38 | every project stays, each with its status cleared if deleted |
| ProjectStatusSeed.ReverseProjectStatuses | apps/projects/migrations/0002_seed_project_statuses.py:21-24 | the reverse deletes exactly the seeded names' rows and clears the projects' references to them |
| ProjectStatusSeed.NoDanglingStatus | apps/projects/migrations/0002_seed_project_statuses.py:21-24 | no project keeps the key of a deleted status |
| ProjectStatusSeed.ProjectListsKept | apps/projects/migrations/0002_seed_project_statuses.py:21-24 | every user's project list is unchanged by the reverse |
| TaskStatusSeed.RemainingTasks | apps/tasks/models.py:34-38 | exactly the tasks of deleted statuses go, and the rest stay unchanged |
| TaskStatusSeed.ReverseTaskStatuses | apps/tasks/migrations/0002_seed_task_statuses.py:21-24 | the reverse deletes exactly the seeded names' rows and, by cascade, their tasks |
| TaskStatusSeed.NoDanglingStatus | apps/tasks/migrations/0002_seed_task_statuses.py:21-24 | every remaining task's status still exists and is not a seeded one |
| TaskStatusSeed.CascadeHardDeletes | apps/tasks/models.py:34-38 | the cascade removes tasks outright: they leave the table and every list |

## Left out

- Common.Lower: lower-cases ASCII letters only; Python's `str.lower` also folds other Unicode letters.
- Json: floats, tuples and other non-JSON Python values are not represented. A tuple `roles` claim is covered as a list.
- AdminPermission.HasPermission: the `except Exception` branch is not reachable in the model, since every role row has a name.
- AccountModels.Instantiate: the values of `role`, `reset_token`, `reset_expiry`, `deleted_at`, `modified_at`, `id` and `pk` keywords are not carried into the row. An explicit `id` or `pk` makes Django save under that key, updating the row if one exists; the model inserts under the next key instead. A non-numeric `created_at` is treated as missing, and field validation of values is not modelled.
- AccountModels.Instantiate: keywords are a map, so their order is not modelled. Django handles the leftover keywords in call order. Assigning a many-to-many keyword (`groups`, `user_permissions`) raises `TypeError` at once, so such a keyword before a read-only one gives `TypeError` where the model gives `AttributeError`. Either way nothing is saved.
- AccountModels.SuperuserNeverInstantiated: states `AttributeError`. A caller's many-to-many keyword before the forwarded `is_staff` raises `TypeError` instead; the constructor raises in every case.
- AccountModels.CreateSuperuserAndSave: the same: `TypeError` instead of `AttributeError` when a many-to-many keyword comes first. The table is never changed.
- AccountModels.CreateAndSave: inherits the keyword-order and `id`/`pk` limits of `Instantiate`.
- AccountModels.CreateAndSave: `normalize_email` and `make_password` are parameters, not Django's implementations.
- AccountViews.Register: non-string request values and an explicit `null` telephone are not modelled. `role_id` is an optional integer.
- AccountViews.Login: credential validation and JWT signing (simplejwt) are not modelled. The reply starts from the validated token strings and the authenticated user.
- AccountViews.HttpResponse.DeleteCookie: the `expires` attribute `delete_cookie` also sets is not recorded.
- AccountModels.UserRoleTable.Insert: `tbl_user_roles.id` is a plain integer key with no default, so Django inserts `id = NULL`. The model assumes SQLite, where an `INTEGER PRIMARY KEY` then takes the next rowid, modelled as the next counter value. On PostgreSQL that insert raises `IntegrityError` instead, and every registration would fail after its user row is written.
- Concurrency and transactions between requests are not modelled. Each migration is treated as one transaction, and each request as running alone.
- Query execution, `select_related`, and the filter, search and ordering backends are not modelled. Only the default ordering is, and the placement of `NULL` under it is a parameter (`nullsLast`).
- AdminSeed.ReverseDefaultAdmin: cascades into other apps when the admin user is deleted are not modelled. Those are projects `created_by` the admin, with their tasks, and tasks assigned to the admin.
- The serializer field declarations, URL routes and `IsOwnerOrReadOnly` are not modelled. The permission class is not among the source files, so `IsOwnerOrReadOnly` is not part of this model.
- TaskViewSet.PerformCreate: the corrected create takes the project as a parameter. The source gives no writable project field, and how a request would name one is not modelled.
- ProjectModels.ProjectObject.Delete: after `save`, Django's instance holds the `Now()` expression rather than a timestamp. The model gives the instance the time the database writes.
- TaskModels.TaskObject.Delete: the same holds for tasks.
- AccountViews.Deliver: the body of Django's 500 page is not modelled.

## Findings

| source | as written | input that shows it | evidently intended | confidence | as-written member | corrected member |
|---|---|---|---|---|---|---|
| apps/tasks/permissions.py:9 | the `or` reaches `obj.project.members`, an attribute `Project` does not have, for every call for an unsafe method by a non-creator. The defect is latent: `TaskViewSet` looks tasks up among the caller's own projects first, so it never makes such a call (`TaskViewSet.ObjectCheckNeverRaises`) | `has_object_permission` called directly with method `PUT`, user 2 and a task of a project user 1 created | the creator or a member of the project may write | high; not executed | TaskPermission.PutByNonCreatorRaises | TaskPermission.NonCreatorNeedsMembership |
| apps/tasks/viewsets.py:20 | `serializer.save(created_by=...)` hands `created_by` to `Task(...)`, which has no such field, so creation raises `TypeError` | any valid create request | save the task in a project the request names and without `created_by`. Dropping `created_by` alone still fails, since `TaskSerializer` shows `project` read-only and `project_id` is `NOT NULL` (`TaskViewSet.PerformCreateWithoutCreatedBy`) | high; not executed | TaskViewSet.PerformCreateAsWritten | TaskViewSet.PerformCreate |
| apps/accounts/views.py:101-105 | `logout_view` is a plain Django view (routed bare in `apps/accounts/urls.py`) that returns a DRF `Response`; rendering it fails the renderer assertion | any request to `/logout/` after a login | a DRF view (`@api_view`) whose reply deletes both token cookies | high; not executed | AccountViews.LogoutAsWritten | AccountViews.LogoutAsApiView |
