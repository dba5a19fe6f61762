/** `ProjectStatus` (`tbl_project_status`) and `TaskStatus` (`tbl_task_status`)
    have the same columns and the same seed migration: `update_or_create` by
    name of "todo", "in progress" and "completed", and a reverse that deletes
    the rows with those names. `name` is not unique, so several rows may carry
    one name. */
module StatusModel {

  import opened Common

  datatype Status = Status(name: string, createdAt: Option<Time>, modifiedAt: Option<Time>,
                           deletedAt: Option<Time>)

  const SeededNames: seq<string> := ["todo", "in progress", "completed"]

  /** The keys of the rows named `name`. */
  function Named(rows: map<int, Status>, name: string): set<int>
  {
    set k | k in rows && rows[k].name == name
  }

  /** What a seeded row holds after the forward run at time `now`. */
  function Seeded(name: string, now: Time): Status
  {
    Status(name, Some(now), Some(now), None)
  }

  /** `name` has exactly one row, holding the seeded values. */
  ghost predicate SeededOnce(rows: map<int, Status>, name: string, now: Time)
  {
    && |Named(rows, name)| == 1
    && forall k :: k in rows && rows[k].name == name ==> rows[k] == Seeded(name, now)
  }

  class StatusTable {
    var rows: map<int, Status>
    /** The next value of the auto-increment key. */
    var nextId: int

    ghost predicate Valid()
      reads this
    {
      0 < nextId && forall k :: k in rows ==> 0 < k < nextId
    }

    constructor ()
      ensures Valid() && rows == map[] && nextId == 1
    {
      rows := map[];
      nextId := 1;
    }

    /** `update_or_create(name=name, defaults=...)`: two or more rows with the
        name raise; one is updated with the defaults; none means a new row. */
    method UpdateOrCreate(name: string, now: Time) returns (r: Result<int, DbError>)
      requires Valid()
      modifies this
      ensures Valid()
      ensures r.Failure? <==> |Named(old(rows), name)| > 1
      ensures r.Failure? ==> r.error == MultipleObjectsReturned && rows == old(rows) && nextId == old(nextId)
      ensures r.Success? ==> rows == old(rows)[r.value := Seeded(name, now)]
      ensures r.Success? ==> r.value !in old(rows) || old(rows)[r.value].name == name
      ensures r.Success? && Named(old(rows), name) == {} ==>
        r.value == old(nextId) && nextId == old(nextId) + 1
      ensures r.Success? && Named(old(rows), name) != {} ==> r.value in old(rows) && nextId == old(nextId)
    {
      var matches := Named(rows, name);
      if |matches| > 1 {
        return Failure(MultipleObjectsReturned);
      }
      if matches == {} {
        r := Success(nextId);
        rows := rows[nextId := Seeded(name, now)];
        nextId := nextId + 1;
      } else {
        NonEmptyHasMember(matches);
        var k :| k in matches;
        r := Success(k);
        rows := rows[k := Seeded(name, now)];
      }
    }

    /** The forward migration: upsert each seeded name in turn. An error
        aborts the migration, whose transaction restores the table. */
    method Seed(now: Time) returns (ok: bool)
      requires Valid()
      modifies this
      ensures Valid()
      ensures ok <==> forall n :: n in SeededNames ==> |Named(old(rows), n)| <= 1
      ensures !ok ==> rows == old(rows) && nextId == old(nextId)
      ensures ok ==> forall n :: n in SeededNames ==> SeededOnce(rows, n, now)
      ensures ok ==> forall k :: k in old(rows) && old(rows)[k].name !in SeededNames ==>
                       k in rows && rows[k] == old(rows)[k]
      ensures ok ==> old(rows).Keys <= rows.Keys
      ensures ok ==> forall k :: k in old(rows) ==> rows[k].name == old(rows)[k].name
      ensures ok ==> forall k :: k in rows && k !in old(rows) ==>
                       rows[k].name in SeededNames && Named(old(rows), rows[k].name) == {}
    {
      ghost var before := rows;
      var snapshot, snapshotId := rows, nextId;
      var i := 0;
      while i < |SeededNames|
        invariant 0 <= i <= |SeededNames|
        invariant Valid()
        invariant SeedProgress(before, rows, i, now)
      {
        var name := SeededNames[i];
        ghost var pre := rows;
        NamedFromPrefix(before, pre, i, now);
        var r := UpdateOrCreate(name, now);
        if r.Failure? {
          rows, nextId := snapshot, snapshotId;
          return false;
        }
        SeedStep(before, pre, rows, r.value, i, now);
        i := i + 1;
      }
      SeedDone(before, rows, now);
      assert SeededNames[..|SeededNames|] == SeededNames;
      ok := true;
    }

    /** `reverse_code`: delete every row named "todo", "in progress" or
        "completed"; the removed keys are returned for the cascades. */
    method DeleteSeeded() returns (removed: set<int>)
      requires Valid()
      modifies this
      ensures Valid() && nextId == old(nextId)
      ensures removed == set k | k in old(rows) && old(rows)[k].name in SeededNames
      ensures rows == map k | k in old(rows) && old(rows)[k].name !in SeededNames :: old(rows)[k]
    {
      removed := set k | k in rows && rows[k].name in SeededNames;
      rows := map k | k in rows && rows[k].name !in SeededNames :: rows[k];
    }
  }

  /** What the forward loop has established once the first `i` names are
      done, with `before` the table at the start. */
  ghost predicate SeedProgress(before: map<int, Status>, rows: map<int, Status>, i: nat, now: Time)
  {
    && i <= |SeededNames|
    && before.Keys <= rows.Keys
    && (forall k :: k in before && before[k].name !in SeededNames[..i] ==> rows[k] == before[k])
    && (forall k :: k in before && before[k].name in SeededNames[..i] ==> rows[k].name == before[k].name)
    && (forall k :: k in rows && k !in before ==>
          rows[k].name in SeededNames[..i] && Named(before, rows[k].name) == {})
    && (forall k :: k in rows && rows[k].name in SeededNames[..i] ==> rows[k] == Seeded(rows[k].name, now))
    && (forall j :: 0 <= j < i ==>
          |Named(before, SeededNames[j])| <= 1 && |Named(rows, SeededNames[j])| == 1)
  }

  /** Before the `i`-th name is upserted its rows are those it had at the
      start: the earlier upserts concern other names. */
  lemma NamedFromPrefix(before: map<int, Status>, rows: map<int, Status>, i: nat, now: Time)
    requires i < |SeededNames| && SeedProgress(before, rows, i, now)
    ensures Named(rows, SeededNames[i]) == Named(before, SeededNames[i])
  {
    var name := SeededNames[i];
    var done := SeededNames[..i];
    assert name !in done;
    forall k | k in Named(rows, name) ensures k in Named(before, name) {
      assert k in before;
      assert before[k].name !in done;
    }
    forall k | k in Named(before, name) ensures k in Named(rows, name) {
      assert rows[k] == before[k];
    }
  }

  /** Two distinct keys make a set of at least two. */
  lemma TwoMembers(s: set<int>, x: int, y: int)
    requires x in s && y in s && x != y
    ensures |s| >= 2
  {
    var rest := s - {x, y};
    assert s == rest + {x, y};
    assert rest * {x, y} == {};
  }

  /** One upsert of the `i`-th name extends the loop's facts to `i + 1`. */
  lemma SeedStep(before: map<int, Status>, pre: map<int, Status>, post: map<int, Status>,
                 key: int, i: nat, now: Time)
    requires i < |SeededNames| && SeedProgress(before, pre, i, now)
    requires post == pre[key := Seeded(SeededNames[i], now)]
    requires key in pre ==> pre[key].name == SeededNames[i]
    requires key !in pre ==> Named(pre, SeededNames[i]) == {}
    requires |Named(pre, SeededNames[i])| <= 1
    ensures SeedProgress(before, post, i + 1, now)
  {
    var name := SeededNames[i];
    var done := SeededNames[..i];
    assert SeededNames[..i + 1] == done + [name];
    assert name !in done;
    NamedFromPrefix(before, pre, i, now);
    assert Named(post, name) == {key} by {
      forall k | k in Named(post, name) ensures k == key {
        if k != key {
          assert k in Named(pre, name);
          if key in pre {
            TwoMembers(Named(pre, name), k, key);
          }
        }
      }
    }
    forall j | 0 <= j < i ensures Named(post, SeededNames[j]) == Named(pre, SeededNames[j]) {
      assert SeededNames[j] in done;
    }
    forall k | k in post && post[k].name in done + [name]
      ensures post[k] == Seeded(post[k].name, now)
    {
      if k != key && post[k].name == name {
        assert k in Named(pre, name);
        if key in pre {
          TwoMembers(Named(pre, name), k, key);
        }
      }
    }
  }

  /** When the loop ends every seeded name has been done. */
  lemma SeedDone(before: map<int, Status>, rows: map<int, Status>, now: Time)
    requires SeedProgress(before, rows, |SeededNames|, now)
    ensures forall n :: n in SeededNames ==> |Named(before, n)| <= 1
    ensures forall n :: n in SeededNames ==> SeededOnce(rows, n, now)
  {
    assert SeededNames[..|SeededNames|] == SeededNames;
    forall n | n in SeededNames ensures |Named(before, n)| <= 1 && SeededOnce(rows, n, now) {
      var j :| 0 <= j < |SeededNames| && SeededNames[j] == n;
    }
  }

  /** Two forward runs, at `first` and then at `second`: the second succeeds
      exactly when the first did, adds no row, and leaves each seeded name on
      a single row holding the second run's values. */
  method SeedTwice(table: StatusTable, first: Time, second: Time) returns (ok1: bool, ok2: bool)
    requires table.Valid()
    modifies table
    ensures table.Valid()
    ensures ok2 == ok1
    ensures ok1 ==> forall n :: n in SeededNames ==> SeededOnce(table.rows, n, second)
    ensures ok1 ==> forall k :: k in table.rows && k !in old(table.rows) ==>
      table.rows[k].name in SeededNames && Named(old(table.rows), table.rows[k].name) == {}
    ensures !ok1 ==> table.rows == old(table.rows)
  {
    ok1 := table.Seed(first);
    ghost var mid := table.rows;
    ok2 := table.Seed(second);
    if ok1 {
      assert forall n :: n in SeededNames ==> Named(mid, n) != {} by {
        forall n | n in SeededNames ensures Named(mid, n) != {} {
          assert |Named(mid, n)| == 1;
        }
      }
    }
  }
}
