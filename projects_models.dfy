/** `Project` (`tbl_projects`) and its soft-delete lifecycle. Deleting a
    project through the model never removes the row: it stamps `deleted_at`
    and writes that one column back; restoring clears it the same way. */
module ProjectModels {

  import opened Common

  /** A `tbl_projects` row; `status` is the nullable `project_status_id` and
      `createdBy` the `created_by` user key. */
  datatype Project = Project(
    name: string,
    description: string,
    startDate: Time,
    endDate: Time,
    createdAt: Option<Time>,
    modifiedAt: Option<Time>,
    deletedAt: Option<Time>,
    status: Option<int>,
    createdBy: int)

  /** The row as `delete` leaves it, with the database clock reading `now`. */
  function SoftDeleted(p: Project, now: Time): (r: Project)
    ensures r.deletedAt == Some(now)
    ensures r.(deletedAt := p.deletedAt) == p
  {
    p.(deletedAt := Some(now))
  }

  /** The row as `restore` leaves it. */
  function Restored(p: Project): (r: Project)
    ensures r.deletedAt == None
    ensures r.(deletedAt := p.deletedAt) == p
  {
    p.(deletedAt := None)
  }

  /** `restore` undoes `delete`: every field is as before, with `deleted_at`
      cleared, so a project that was live is back exactly as it was. */
  lemma RestoreUndoesDelete(p: Project, now: Time)
    ensures Restored(SoftDeleted(p, now)) == Restored(p)
    ensures p.deletedAt == None ==> Restored(SoftDeleted(p, now)) == p
  {
  }

  class ProjectTable {
    var rows: map<int, Project>
    /** The next value of the auto-increment key. */
    var nextId: int

    ghost predicate Valid()
      reads this
    {
      0 < nextId && forall k :: k in rows ==> 0 < k < nextId
    }

    constructor ()
      ensures Valid() && rows == map[] && nextId == 1
    {
      rows := map[];
      nextId := 1;
    }

    /** `save()` of a new project under the next key. */
    method Insert(p: Project) returns (id: int)
      requires Valid()
      modifies this
      ensures Valid()
      ensures id == old(nextId) && id !in old(rows)
      ensures rows == old(rows)[id := p] && nextId == old(nextId) + 1
    {
      id := nextId;
      rows := rows[id := p];
      nextId := nextId + 1;
    }

    /** `save(update_fields=['deleted_at'])`: one column of one row, refused
        (Django's `DatabaseError`) when no row has the key. */
    method SaveDeletedAt(id: int, value: Option<Time>) returns (ok: bool)
      requires Valid()
      modifies this
      ensures Valid() && nextId == old(nextId)
      ensures ok <==> id in old(rows)
      ensures ok ==> rows == old(rows)[id := old(rows)[id].(deletedAt := value)]
      ensures !ok ==> rows == old(rows)
    {
      ok := id in rows;
      if ok {
        rows := rows[id := rows[id].(deletedAt := value)];
      }
    }
  }

  /** A loaded `Project` instance: its key and the attribute values it holds,
      which may be stale with respect to the table. */
  class ProjectObject {
    const id: int
    var fields: Project

    constructor (id: int, fields: Project)
      ensures this.id == id && this.fields == fields
    {
      this.id := id;
      this.fields := fields;
    }

    /** `delete`: stamp `deleted_at` with the database clock `now` and write
        that column alone. The row stays; a stale instance does not overwrite
        the row's other columns. */
    method Delete(table: ProjectTable, now: Time) returns (saved: bool)
      requires table.Valid()
      modifies this, table
      ensures table.Valid() && table.nextId == old(table.nextId)
      ensures fields == SoftDeleted(old(fields), now)
      ensures saved <==> id in old(table.rows)
      ensures saved ==> table.rows == old(table.rows)[id := SoftDeleted(old(table.rows)[id], now)]
      ensures !saved ==> table.rows == old(table.rows)
    {
      fields := fields.(deletedAt := Some(now));
      saved := table.SaveDeletedAt(id, fields.deletedAt);
    }

    /** `restore`: clear `deleted_at` and write that column alone. */
    method Restore(table: ProjectTable) returns (saved: bool)
      requires table.Valid()
      modifies this, table
      ensures table.Valid() && table.nextId == old(table.nextId)
      ensures fields == Restored(old(fields))
      ensures saved <==> id in old(table.rows)
      ensures saved ==> table.rows == old(table.rows)[id := Restored(old(table.rows)[id])]
      ensures !saved ==> table.rows == old(table.rows)
    {
      fields := fields.(deletedAt := None);
      saved := table.SaveDeletedAt(id, fields.deletedAt);
    }
  }
}
