/** `Task` (`tbl_tasks`) and its soft delete. A task always has a status and
    a project, and may have no assignee; the table has no `created_by`
    column. */
module TaskModels {

  import opened Common

  /** A `tbl_tasks` row; `status`, `assignee` and `project` are the
      `status_id`, nullable `assignee_id` and `project_id` keys. */
  datatype Task = Task(
    title: string,
    description: string,
    deadline: Option<Time>,
    createdAt: Option<Time>,
    modifiedAt: Option<Time>,
    deletedAt: Option<Time>,
    status: int,
    assignee: Option<int>,
    project: int)

  /** The columns of `tbl_tasks`, the keyword arguments `Task(...)` accepts. */
  const TaskColumns: set<string> :=
    {"id", "title", "description", "deadline", "created_at", "modified_at", "deleted_at",
     "status", "assignee", "project"}

  /** The row as `delete` leaves it, with the database clock reading `now`. */
  function SoftDeleted(t: Task, now: Time): (r: Task)
    ensures r.deletedAt == Some(now)
    ensures r.title == t.title && r.status == t.status && r.assignee == t.assignee && r.project == t.project
    ensures r.(deletedAt := t.deletedAt) == t
  {
    t.(deletedAt := Some(now))
  }

  class TaskTable {
    var rows: map<int, Task>
    /** The next value of the auto-increment key. */
    var nextId: int

    ghost predicate Valid()
      reads this
    {
      0 < nextId && forall k :: k in rows ==> 0 < k < nextId
    }

    constructor ()
      ensures Valid() && rows == map[] && nextId == 1
    {
      rows := map[];
      nextId := 1;
    }

    /** `save()` of a new task under the next key. */
    method Insert(t: Task) returns (id: int)
      requires Valid()
      modifies this
      ensures Valid()
      ensures id == old(nextId) && id !in old(rows)
      ensures rows == old(rows)[id := t] && nextId == old(nextId) + 1
    {
      id := nextId;
      rows := rows[id := t];
      nextId := nextId + 1;
    }

    /** `save(update_fields=['deleted_at'])`: one column of one row, refused
        (Django's `DatabaseError`) when no row has the key. */
    method SaveDeletedAt(id: int, value: Option<Time>) returns (ok: bool)
      requires Valid()
      modifies this
      ensures Valid() && nextId == old(nextId)
      ensures ok <==> id in old(rows)
      ensures ok ==> rows == old(rows)[id := old(rows)[id].(deletedAt := value)]
      ensures !ok ==> rows == old(rows)
    {
      ok := id in rows;
      if ok {
        rows := rows[id := rows[id].(deletedAt := value)];
      }
    }
  }

  /** A loaded `Task` instance: its key and the attribute values it holds. */
  class TaskObject {
    const id: int
    var fields: Task

    constructor (id: int, fields: Task)
      ensures this.id == id && this.fields == fields
    {
      this.id := id;
      this.fields := fields;
    }

    /** `delete`: stamp `deleted_at` with the database clock and write that
        column alone; title, status, assignee and project stay as the row
        holds them. */
    method Delete(table: TaskTable, now: Time) returns (saved: bool)
      requires table.Valid()
      modifies this, table
      ensures table.Valid() && table.nextId == old(table.nextId)
      ensures fields == SoftDeleted(old(fields), now)
      ensures saved <==> id in old(table.rows)
      ensures saved ==> table.rows == old(table.rows)[id := SoftDeleted(old(table.rows)[id], now)]
      ensures !saved ==> table.rows == old(table.rows)
    {
      fields := fields.(deletedAt := Some(now));
      saved := table.SaveDeletedAt(id, fields.deletedAt);
    }
  }
}
