/** `ProjectViewSet`: the list a user sees is the live projects that user
    created, newest first, and a project created through the API is stamped
    with its creator. */
module ProjectViewSet {

  import opened Common
  import opened ProjectModels
  import Listing

  /** `get_queryset`: `deleted_at IS NULL AND created_by = user`. */
  function VisibleProjects(rows: map<int, Project>, user: int): (r: set<int>)
    ensures r <= rows.Keys
  {
    set k | k in rows && rows[k].deletedAt == None && rows[k].createdBy == user
  }

  /** No project is in two users' lists. */
  lemma ListsDisjoint(rows: map<int, Project>, u: int, v: int)
    requires u != v
    ensures VisibleProjects(rows, u) * VisibleProjects(rows, v) == {}
  {
  }

  /** Soft-deleting a project takes it out of its owner's list and changes
      no other list. */
  lemma DeleteHides(rows: map<int, Project>, id: int, now: Time, user: int)
    requires id in rows
    ensures VisibleProjects(rows[id := SoftDeleted(rows[id], now)], user) == VisibleProjects(rows, user) - {id}
  {
  }

  /** Restoring a project puts it back in its owner's list and changes no
      other list. */
  lemma RestoreShows(rows: map<int, Project>, id: int, user: int)
    requires id in rows
    ensures VisibleProjects(rows[id := Restored(rows[id])], user) ==
      if rows[id].createdBy == user then VisibleProjects(rows, user) + {id} else VisibleProjects(rows, user)
  {
  }

  /** Deleting and then restoring a project leaves every list as if it had
      never been deleted. */
  lemma DeleteRestoreRoundTrip(rows: map<int, Project>, id: int, now: Time, user: int)
    requires id in rows && rows[id].deletedAt == None
    ensures var deleted := rows[id := SoftDeleted(rows[id], now)];
      VisibleProjects(deleted[id := Restored(deleted[id])], user) == VisibleProjects(rows, user)
  {
    var deleted := rows[id := SoftDeleted(rows[id], now)];
    assert deleted[id := Restored(deleted[id])] == rows;
  }

  /** The list response: the visible projects, each once, in the default
      `-created_at` order. */
  ghost function ProjectList(rows: map<int, Project>, user: int, nullsLast: bool): (order: seq<int>)
    ensures forall k :: k in order <==> k in rows && rows[k].deletedAt == None && rows[k].createdBy == user
    ensures forall i, j :: 0 <= i < j < |order| ==>
      order[i] != order[j] && Listing.MayPrecede(rows[order[i]].createdAt, rows[order[j]].createdAt, nullsLast)
  {
    Listing.Ordered(Listing.CreatedStamps(rows, (p: Project) => p.createdAt), VisibleProjects(rows, user), nullsLast)
  }

  /** The validated fields of a create request: `name`, the two dates and
      the optional `project_status_id`. `description` is not a serializer
      field and the timestamps are read-only. */
  datatype ProjectInput = ProjectInput(name: string, startDate: Time, endDate: Time, status: Option<int>)

  /** The row `serializer.save(created_by=user)` inserts. */
  function NewProject(data: ProjectInput, user: int): (p: Project)
    ensures p.createdBy == user && p.deletedAt == None
    ensures p.name == data.name && p.status == data.status
    ensures p.startDate == data.startDate && p.endDate == data.endDate
    ensures p.description == "" && p.createdAt == None && p.modifiedAt == None
  {
    Project(data.name, "", data.startDate, data.endDate, None, None, None, data.status, user)
  }

  /** `perform_create`: insert the request's project owned by the requesting user. */
  method PerformCreate(table: ProjectTable, data: ProjectInput, user: int) returns (id: int)
    requires table.Valid()
    modifies table
    ensures table.Valid()
    ensures id !in old(table.rows) && table.rows == old(table.rows)[id := NewProject(data, user)]
  {
    id := table.Insert(NewProject(data, user));
  }

  /** A created project joins its creator's list and no other. */
  lemma CreatedProjectListed(rows: map<int, Project>, id: int, data: ProjectInput, creator: int, user: int)
    requires id !in rows
    ensures VisibleProjects(rows[id := NewProject(data, creator)], user) ==
      if user == creator then VisibleProjects(rows, user) + {id} else VisibleProjects(rows, user)
  {
  }
}
