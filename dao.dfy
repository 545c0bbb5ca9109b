/**
 * The `tasks` table behind `TaskDao`, as an in-memory table. Rows are keyed by
 * their primary key; `lastRowId` is the table's AUTOINCREMENT sequence (the
 * largest key ever used), from which generated keys are drawn.
 */
module Dao {
  import opened Wrappers
  import opened Entity

  /** No two tasks in the list share an id. */
  predicate DistinctIds(tasks: seq<TaskEntity>) {
    forall i, j :: 0 <= i < j < |tasks| ==> tasks[i].id != tasks[j].id
  }

  /** `ORDER BY triggerHour, triggerMinute`. */
  predicate TimeLeq(a: TaskEntity, b: TaskEntity) {
    a.triggerHour < b.triggerHour || (a.triggerHour == b.triggerHour && a.triggerMinute <= b.triggerMinute)
  }

  predicate SortedByTime(tasks: seq<TaskEntity>) {
    forall i, j :: 0 <= i < j < |tasks| ==> TimeLeq(tasks[i], tasks[j])
  }

  /** Inserts `e` into a time-ordered list, before the first row that is not earlier than it. */
  function InsertByTime(tasks: seq<TaskEntity>, e: TaskEntity): (r: seq<TaskEntity>)
    requires SortedByTime(tasks)
    ensures |r| == |tasks| + 1
    ensures SortedByTime(r)
    ensures forall t :: t in r <==> t in tasks || t == e
    ensures r[0] == e || (|tasks| > 0 && r[0] == tasks[0])
    ensures DistinctIds(tasks) && (forall t :: t in tasks ==> t.id != e.id) ==> DistinctIds(r)
    decreases |tasks|
  {
    if |tasks| == 0 || TimeLeq(e, tasks[0]) then
      SortedCons(e, tasks);
      DistinctCons(e, tasks);
      [e] + tasks
    else
      var tail := tasks[1..];
      SortedTail(tasks);
      var rest := InsertByTime(tail, e);
      SortedCons(tasks[0], rest);
      assert DistinctIds(tasks) ==> forall t :: t in tail ==> t.id != tasks[0].id;
      DistinctCons(tasks[0], rest);
      [tasks[0]] + rest
  }

  lemma SortedTail(tasks: seq<TaskEntity>)
    requires SortedByTime(tasks) && |tasks| > 0
    ensures SortedByTime(tasks[1..])
  {
  }

  lemma SortedCons(t: TaskEntity, rest: seq<TaskEntity>)
    requires SortedByTime(rest) && (|rest| > 0 ==> TimeLeq(t, rest[0]))
    ensures SortedByTime([t] + rest)
  {
    var r := [t] + rest;
    forall i, j | 0 <= i < j < |r|
      ensures TimeLeq(r[i], r[j])
    {
      if i == 0 && j > 1 {
        assert TimeLeq(rest[0], rest[j - 1]);
      }
    }
  }

  lemma DistinctCons(t: TaskEntity, rest: seq<TaskEntity>)
    ensures DistinctIds(rest) && (forall u :: u in rest ==> u.id != t.id) ==> DistinctIds([t] + rest)
  {
    var r := [t] + rest;
    if DistinctIds(rest) && forall u :: u in rest ==> u.id != t.id {
      forall i, j | 0 <= i < j < |r|
        ensures r[i].id != r[j].id
      {
        if i == 0 {
          assert r[j] in rest;
        }
      }
    }
  }

  class TaskDao {
    var rows: map<int, TaskEntity>
    var lastRowId: int

    /** Every row is stored under its own id; 0 is never a stored id; generated ids stay fresh. */
    ghost predicate Valid()
      reads this
    {
      && 0 <= lastRowId
      && forall id :: id in rows ==> rows[id].id == id && id != AutoGenerateId && id <= lastRowId
    }

    constructor ()
      ensures Valid() && rows == map[] && lastRowId == 0
    {
      rows := map[];
      lastRowId := 0;
    }

    /** `getTaskById`: the row with that id, or null. */
    function GetTaskById(taskId: int): (r: Option<TaskEntity>)
      reads this
      requires Valid()
      ensures r.Some? <==> taskId in rows
      ensures r.Some? ==> r.value == rows[taskId] && r.value.id == taskId
    {
      if taskId in rows then Some(rows[taskId]) else None
    }

    /** `getEnabledTasksList`: exactly the rows with `isEnabled`, each once, in no particular order. */
    method GetEnabledTasksList() returns (tasks: seq<TaskEntity>)
      requires Valid()
      ensures DistinctIds(tasks)
      ensures forall t :: t in tasks ==> t.id in rows && rows[t.id] == t && t.isEnabled
      ensures forall id :: id in rows && rows[id].isEnabled ==> rows[id] in tasks
    {
      var remaining := rows.Keys;
      tasks := [];
      while exists id :: id in remaining
        invariant remaining <= rows.Keys
        invariant DistinctIds(tasks)
        invariant forall t :: t in tasks ==> t.id in rows && rows[t.id] == t && t.isEnabled && t.id !in remaining
        invariant forall id :: id in rows && id !in remaining && rows[id].isEnabled ==> rows[id] in tasks
        decreases remaining
      {
        var id: int :| id in remaining;
        if rows[id].isEnabled {
          tasks := tasks + [rows[id]];
        }
        remaining := remaining - {id};
      }
    }

    /** `getAllTasks` (one snapshot of the query): every row once, ordered by trigger time. */
    method GetAllTasks() returns (tasks: seq<TaskEntity>)
      requires Valid()
      ensures SortedByTime(tasks)
      ensures DistinctIds(tasks)
      ensures forall t :: t in tasks ==> t.id in rows && rows[t.id] == t
      ensures forall id :: id in rows ==> rows[id] in tasks
    {
      var remaining := rows.Keys;
      tasks := [];
      while exists id :: id in remaining
        invariant remaining <= rows.Keys
        invariant SortedByTime(tasks)
        invariant DistinctIds(tasks)
        invariant forall t :: t in tasks ==> t.id in rows && rows[t.id] == t && t.id !in remaining
        invariant forall id :: id in rows && id !in remaining ==> rows[id] in tasks
        decreases remaining
      {
        var id: int :| id in remaining;
        tasks := InsertByTime(tasks, rows[id]);
        remaining := remaining - {id};
      }
    }

    /** `insertTask` with REPLACE: id 0 draws a fresh key; any row with the same key is overwritten. */
    method InsertTask(task: TaskEntity) returns (id: int)
      requires Valid()
      modifies this
      ensures Valid()
      ensures id == if task.id == AutoGenerateId then old(lastRowId) + 1 else task.id
      ensures task.id == AutoGenerateId ==> id !in old(rows)
      ensures rows == old(rows)[id := task.(id := id)]
      ensures lastRowId == if id > old(lastRowId) then id else old(lastRowId)
    {
      if task.id == AutoGenerateId {
        id := lastRowId + 1;
      } else {
        id := task.id;
      }
      rows := rows[id := task.(id := id)];
      if id > lastRowId {
        lastRowId := id;
      }
    }

    /** `updateTask`: overwrites the row with the same key; no row, no change. */
    method UpdateTask(task: TaskEntity)
      requires Valid()
      modifies this
      ensures Valid()
      ensures rows == if task.id in old(rows) then old(rows)[task.id := task] else old(rows)
      ensures lastRowId == old(lastRowId)
    {
      if task.id in rows {
        rows := rows[task.id := task];
      }
    }

    /** `deleteTask`: deletes by the entity's primary key only. */
    method DeleteTask(task: TaskEntity)
      requires Valid()
      modifies this
      ensures Valid()
      ensures rows == old(rows) - {task.id} && lastRowId == old(lastRowId)
    {
      rows := rows - {task.id};
    }

    /** `deleteTaskById`: removes that row only; a no-op when it is absent. */
    method DeleteTaskById(taskId: int)
      requires Valid()
      modifies this
      ensures Valid()
      ensures rows == old(rows) - {taskId} && lastRowId == old(lastRowId)
    {
      rows := rows - {taskId};
    }

    /** `setTaskEnabled`: changes `isEnabled` of that row only. */
    method SetTaskEnabled(taskId: int, isEnabled: bool)
      requires Valid()
      modifies this
      ensures Valid()
      ensures rows == if taskId in old(rows) then old(rows)[taskId := old(rows)[taskId].(isEnabled := isEnabled)] else old(rows)
      ensures lastRowId == old(lastRowId)
    {
      if taskId in rows {
        rows := rows[taskId := rows[taskId].(isEnabled := isEnabled)];
      }
    }

    /** `updateLastTriggered`: changes `lastTriggered` of that row only. */
    method UpdateLastTriggered(taskId: int, timestamp: int)
      requires Valid()
      modifies this
      ensures Valid()
      ensures rows == if taskId in old(rows) then old(rows)[taskId := old(rows)[taskId].(lastTriggered := Some(timestamp))] else old(rows)
      ensures lastRowId == old(lastRowId)
    {
      if taskId in rows {
        rows := rows[taskId := rows[taskId].(lastTriggered := Some(timestamp))];
      }
    }
  }
}
