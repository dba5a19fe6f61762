/** `TaskViewSet`: the list a user sees is the live tasks of the projects
    that user created, newest first. Creation passes a `created_by` keyword
    the task model does not have. */
module TaskViewSet {

  import opened Common
  import opened TaskModels
  import ProjectModels
  import Listing
  import TaskPermission

  /** `get_queryset`: `deleted_at IS NULL AND project.created_by = user`, a
      join through the task's project. */
  function VisibleTasks(tasks: map<int, Task>, projects: map<int, ProjectModels.Project>, user: int): (r: set<int>)
    ensures r <= tasks.Keys
  {
    set k | k in tasks && tasks[k].deletedAt == None && tasks[k].project in projects
                       && projects[tasks[k].project].createdBy == user
  }

  /** No task is in two users' lists. */
  lemma ListsDisjoint(tasks: map<int, Task>, projects: map<int, ProjectModels.Project>, u: int, v: int)
    requires u != v
    ensures VisibleTasks(tasks, projects, u) * VisibleTasks(tasks, projects, v) == {}
  {
  }

  /** Soft-deleting a task takes it out of the list and changes nothing else
      in any list. */
  lemma DeleteHides(tasks: map<int, Task>, projects: map<int, ProjectModels.Project>, id: int, now: Time, user: int)
    requires id in tasks
    ensures VisibleTasks(tasks[id := SoftDeleted(tasks[id], now)], projects, user)
         == VisibleTasks(tasks, projects, user) - {id}
  {
  }

  /** The filter reads the project's creator only: the tasks of a
      soft-deleted project are still listed. */
  lemma DeletedProjectTasksListed(tasks: map<int, Task>, projects: map<int, ProjectModels.Project>,
                                  p: int, now: Time, user: int)
    requires p in projects
    ensures VisibleTasks(tasks, projects[p := ProjectModels.SoftDeleted(projects[p], now)], user)
         == VisibleTasks(tasks, projects, user)
  {
  }

  /** The list response: the visible tasks, each once, in the default
      `-created_at` order. */
  ghost function TaskList(tasks: map<int, Task>, projects: map<int, ProjectModels.Project>, user: int,
                          nullsLast: bool): (order: seq<int>)
    ensures forall k :: k in order <==>
      && k in tasks && tasks[k].deletedAt == None && tasks[k].project in projects
      && projects[tasks[k].project].createdBy == user
    ensures forall i, j :: 0 <= i < j < |order| ==>
      order[i] != order[j] && Listing.MayPrecede(tasks[order[i]].createdAt, tasks[order[j]].createdAt, nullsLast)
  {
    Listing.Ordered(Listing.CreatedStamps(tasks, (t: Task) => t.createdAt), VisibleTasks(tasks, projects, user), nullsLast)
  }

  /** DRF looks an object up in `get_queryset()` before it checks object
      permissions, so the permission only ever sees tasks of the caller's own
      projects: there the creator test holds and `members` is never read. */
  lemma ObjectCheckNeverRaises(tasks: map<int, Task>, projects: map<int, ProjectModels.Project>, user: int,
                               k: int, verb: string)
    requires k in VisibleTasks(tasks, projects, user)
    ensures TaskPermission.HasObjectPermissionAsWritten(verb, user, projects[tasks[k].project].createdBy)
         == TaskPermission.Value(true)
  {
  }

  // ---------------------------------------------------------------------
  // Creation

  /** The validated fields of a create request. `TaskSerializer` exposes
      `assignee` and `project` read-only, so neither comes from the request. */
  datatype TaskInput = TaskInput(title: string, description: string, deadline: Option<Time>, status: int)

  /** The keyword arguments the serializer's validated data contributes. */
  function InputKeywords(data: TaskInput): (r: set<string>)
    ensures r <= TaskColumns
    ensures "title" in r && "description" in r && "status" in r
  {
    {"title", "description", "status"} + (if data.deadline.Some? then {"deadline"} else {})
  }

  /** The keyword arguments `Task(...)` rejects with a `TypeError`. */
  function UnexpectedKeywords(kwargs: set<string>): (r: set<string>)
    ensures forall k :: k in r <==> k in kwargs && k !in TaskColumns
  {
    kwargs - TaskColumns
  }

  /** Whatever the request, adding `created_by` makes exactly that keyword
      unexpected. */
  lemma CreatedByAlwaysRejected(data: TaskInput)
    ensures UnexpectedKeywords(InputKeywords(data) + {"created_by"}) == {"created_by"}
  {
    var r := UnexpectedKeywords(InputKeywords(data) + {"created_by"});
    assert "created_by" !in TaskColumns;
    forall k | k in r ensures k == "created_by" {
      assert k !in InputKeywords(data);
    }
  }

  datatype CreateOutcome =
    | Created(id: int)
    | RaisedTypeError(unexpected: set<string>)
    | RaisedIntegrityError

  /** The row a create inserts into `project` from the validated fields. */
  function NewTask(data: TaskInput, project: int): (t: Task)
    ensures t.deletedAt == None && t.project == project && t.assignee == None
    ensures t.title == data.title && t.description == data.description
    ensures t.deadline == data.deadline && t.status == data.status
  {
    Task(data.title, data.description, data.deadline, None, None, None, data.status, None, project)
  }

  /** `ModelSerializer.create`: `Task(**kwargs)` raises `TypeError` for a
      keyword that is not a column, before anything is saved. Otherwise the
      row is saved, and the database refuses it when `project_id`, which is
      `NOT NULL` without a default, is not given. */
  method SerializerSave(table: TaskTable, kwargs: set<string>, data: TaskInput, project: Option<int>)
    returns (r: CreateOutcome)
    requires table.Valid()
    modifies table
    ensures table.Valid()
    ensures UnexpectedKeywords(kwargs) != {} ==> r == RaisedTypeError(UnexpectedKeywords(kwargs))
    ensures UnexpectedKeywords(kwargs) == {} && project.None? ==> r == RaisedIntegrityError
    ensures !r.Created? ==> table.rows == old(table.rows) && table.nextId == old(table.nextId)
    ensures UnexpectedKeywords(kwargs) == {} && project.Some? ==>
      && r.Created? && r.id !in old(table.rows)
      && table.rows == old(table.rows)[r.id := NewTask(data, project.value)]
  {
    var unexpected := UnexpectedKeywords(kwargs);
    if unexpected != {} {
      return RaisedTypeError(unexpected);
    }
    if project.None? {
      return RaisedIntegrityError;
    }
    var id := table.Insert(NewTask(data, project.value));
    r := Created(id);
  }

  /** `perform_create` as written: `serializer.save(created_by=user)` hands
      `created_by` to `Task(...)`, so every create raises and saves nothing.
      `TaskSerializer` shows `project` read-only, so no project is given. */
  method PerformCreateAsWritten(table: TaskTable, data: TaskInput, user: int) returns (r: CreateOutcome)
    requires table.Valid()
    modifies table
    ensures r == RaisedTypeError({"created_by"})
    ensures table.rows == old(table.rows) && table.nextId == old(table.nextId)
  {
    CreatedByAlwaysRejected(data);
    r := SerializerSave(table, InputKeywords(data) + {"created_by"}, data, None);
  }

  /** Dropping `created_by` alone is not enough: with `project` read-only the
      row has no `project_id`, and the insert fails `NOT NULL`. */
  method PerformCreateWithoutCreatedBy(table: TaskTable, data: TaskInput) returns (r: CreateOutcome)
    requires table.Valid()
    modifies table
    ensures r == RaisedIntegrityError
    ensures table.rows == old(table.rows) && table.nextId == old(table.nextId)
  {
    assert UnexpectedKeywords(InputKeywords(data)) == {};
    r := SerializerSave(table, InputKeywords(data), data, None);
  }

  /** `perform_create` as evidently intended: `serializer.save(project=...)`
      with the project the request names and no `created_by`; ownership comes
      from the task's project. */
  method PerformCreate(table: TaskTable, data: TaskInput, project: int) returns (r: CreateOutcome)
    requires table.Valid()
    modifies table
    ensures table.Valid()
    ensures r.Created? && r.id !in old(table.rows)
    ensures table.rows == old(table.rows)[r.id := NewTask(data, project)]
  {
    assert UnexpectedKeywords(InputKeywords(data) + {"project"}) == {};
    r := SerializerSave(table, InputKeywords(data) + {"project"}, data, Some(project));
  }

  /** A task created in a project joins the list of that project's creator
      and no other. */
  lemma CreatedTaskListed(tasks: map<int, Task>, projects: map<int, ProjectModels.Project>, id: int,
                          data: TaskInput, project: int, user: int)
    requires id !in tasks
    ensures VisibleTasks(tasks[id := NewTask(data, project)], projects, user) ==
      if project in projects && projects[project].createdBy == user then VisibleTasks(tasks, projects, user) + {id}
      else VisibleTasks(tasks, projects, user)
  {
  }
}
