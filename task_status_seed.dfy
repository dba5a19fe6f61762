/** The reverse of `0002_seed_task_statuses`: deleting the seeded statuses
    deletes every task that had one of them, because `Task.status` is
    `on_delete=CASCADE`. The cascade removes the rows outright; it does not go
    through the tasks' soft delete. The forward run is
    `StatusModel.StatusTable.Seed`. */
module TaskStatusSeed {

  import opened Common
  import opened StatusModel
  import opened TaskModels
  import ProjectModels
  import TaskViewSet

  /** The task rows after the statuses in `removed` are deleted. */
  function RemainingTasks(rows: map<int, Task>, removed: set<int>): (r: map<int, Task>)
    ensures forall k :: k in r <==> k in rows && rows[k].status !in removed
    ensures forall k :: k in r ==> r[k] == rows[k]
  {
    map k | k in rows && rows[k].status !in removed :: rows[k]
  }

  /** `reverse_code`: `filter(name__in=...).delete()` with its `CASCADE`. */
  method ReverseTaskStatuses(statuses: StatusTable, tasks: TaskTable) returns (removed: set<int>)
    requires statuses.Valid() && tasks.Valid()
    modifies statuses, tasks
    ensures statuses.Valid() && tasks.Valid() && tasks.nextId == old(tasks.nextId)
    ensures removed == set k | k in old(statuses.rows) && old(statuses.rows)[k].name in SeededNames
    ensures statuses.rows == map k | k in old(statuses.rows) && old(statuses.rows)[k].name !in SeededNames ::
      old(statuses.rows)[k]
    ensures tasks.rows == RemainingTasks(old(tasks.rows), removed)
  {
    removed := statuses.DeleteSeeded();
    tasks.rows := RemainingTasks(tasks.rows, removed);
  }

  /** Every remaining task's status still exists when every status key
      resolved before. */
  lemma NoDanglingStatus(rows: map<int, Task>, statuses: map<int, Status>)
    requires forall k :: k in rows ==> rows[k].status in statuses
    ensures var removed := set k | k in statuses && statuses[k].name in SeededNames;
      forall k :: k in RemainingTasks(rows, removed) ==>
        RemainingTasks(rows, removed)[k].status in statuses
        && statuses[RemainingTasks(rows, removed)[k].status].name !in SeededNames
  {
  }

  /** The cascade is a hard delete: a live task with a deleted status leaves
      the table and the list of its project's creator, and is not merely
      stamped with `deleted_at`. */
  lemma CascadeHardDeletes(rows: map<int, Task>, projects: map<int, ProjectModels.Project>, removed: set<int>,
                           user: int)
    ensures TaskViewSet.VisibleTasks(RemainingTasks(rows, removed), projects, user)
         == TaskViewSet.VisibleTasks(rows, projects, user) - (set k | k in rows && rows[k].status in removed)
    ensures forall k :: k in rows && rows[k].status in removed ==> k !in RemainingTasks(rows, removed)
  {
  }
}
