/** The reverse of `0002_seed_project_statuses`: deleting the seeded statuses
    clears the status of every project that had one of them, because
    `Project.project_status` is `on_delete=SET_NULL`. The forward run is
    `StatusModel.StatusTable.Seed`. */
module ProjectStatusSeed {

  import opened Common
  import opened StatusModel
  import opened ProjectModels
  import ProjectViewSet

  /** A project after the statuses in `removed` are deleted. */
  function ClearStatus(p: Project, removed: set<int>): (r: Project)
    ensures p.status.Some? && p.status.value in removed ==> r == p.(status := None)
    ensures !(p.status.Some? && p.status.value in removed) ==> r == p
  {
    if p.status.Some? && p.status.value in removed then p.(status := None) else p
  }

  /** The project rows after the statuses in `removed` are deleted. */
  function ClearedProjects(rows: map<int, Project>, removed: set<int>): (r: map<int, Project>)
    ensures r.Keys == rows.Keys
    ensures forall k :: k in rows ==> r[k] == ClearStatus(rows[k], removed)
  {
    map k | k in rows :: ClearStatus(rows[k], removed)
  }

  /** `reverse_code`: `filter(name__in=...).delete()` with its `SET_NULL`. */
  method ReverseProjectStatuses(statuses: StatusTable, projects: ProjectTable) returns (removed: set<int>)
    requires statuses.Valid() && projects.Valid()
    modifies statuses, projects
    ensures statuses.Valid() && projects.Valid() && projects.nextId == old(projects.nextId)
    ensures removed == set k | k in old(statuses.rows) && old(statuses.rows)[k].name in SeededNames
    ensures statuses.rows == map k | k in old(statuses.rows) && old(statuses.rows)[k].name !in SeededNames ::
      old(statuses.rows)[k]
    ensures projects.rows == ClearedProjects(old(projects.rows), removed)
  {
    removed := statuses.DeleteSeeded();
    projects.rows := ClearedProjects(projects.rows, removed);
  }

  /** No project keeps a key of a deleted status, and a project whose status
      survived keeps it: when every status key resolved before, it still does. */
  lemma NoDanglingStatus(rows: map<int, Project>, statuses: map<int, Status>, removed: set<int>)
    requires forall k :: k in rows && rows[k].status.Some? ==> rows[k].status.value in statuses
    ensures forall k :: k in ClearedProjects(rows, removed) && ClearedProjects(rows, removed)[k].status.Some? ==>
      && ClearedProjects(rows, removed)[k].status.value in statuses
      && ClearedProjects(rows, removed)[k].status.value !in removed
  {
  }

  /** Every project survives the reverse, and so does every user's list. */
  lemma ProjectListsKept(rows: map<int, Project>, removed: set<int>, user: int)
    ensures ProjectViewSet.VisibleProjects(ClearedProjects(rows, removed), user)
         == ProjectViewSet.VisibleProjects(rows, user)
  {
    var after := ClearedProjects(rows, removed);
    forall k | k in after ensures after[k].deletedAt == rows[k].deletedAt && after[k].createdBy == rows[k].createdBy {
    }
  }
}
