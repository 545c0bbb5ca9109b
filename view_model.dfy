/**
 * `TaskViewModel`: the edit form's state and the save, enable-toggle and delete
 * operations, which drive the store and the alarm registry in order.
 */
module ViewModel {
  import opened Wrappers
  import opened KotlinText
  import opened Entity
  import opened Domain
  import Mapper
  import Dao
  import opened Scheduler

  /** The form being edited; `editingTaskId` is None for a new task. */
  datatype TaskEditState = TaskEditState(
    title: string,
    description: string,
    hour: int,
    minute: int,
    repeatType: RepeatType,
    repeatDays: seq<Int32>,
    actionType: ActionType,
    actionData: string,
    isEditing: bool,
    editingTaskId: Option<int>
  )

  /** `TaskEditState()`: the defaults of a fresh form. */
  const DefaultEditState := TaskEditState("", "", 8, 0, Once, [], Notification, "", false, None)

  const UntitledTask := "Untitled Task"

  /** Ascending, duplicates allowed: what `sorted()` returns. */
  predicate Sorted(xs: seq<Int32>) {
    forall i, j :: 0 <= i < j < |xs| ==> xs[i] <= xs[j]
  }

  /** Ascending without duplicates: the day lists the day chips build. */
  predicate StrictlySorted(xs: seq<Int32>) {
    forall i, j :: 0 <= i < j < |xs| ==> xs[i] < xs[j]
  }

  /** Places `x` into an ascending list. */
  function InsertSorted(x: Int32, xs: seq<Int32>): (r: seq<Int32>)
    requires Sorted(xs)
    ensures Sorted(r) && multiset(r) == multiset(xs) + multiset{x}
    ensures |r| > 0 && (r[0] == x || (|xs| > 0 && r[0] == xs[0]))
    decreases |xs|
  {
    if |xs| == 0 || x <= xs[0] then [x] + xs
    else
      var rest := InsertSorted(x, xs[1..]);
      assert xs == [xs[0]] + xs[1..];
      assert multiset(xs) == multiset{xs[0]} + multiset(xs[1..]);
      assert xs[0] <= rest[0];
      SortedCons(xs[0], rest);
      assert multiset([xs[0]] + rest) == multiset{xs[0]} + multiset(rest);
      [xs[0]] + rest
  }

  /** A head no greater than the first element of an ascending list keeps it ascending. */
  lemma SortedCons(h: Int32, rest: seq<Int32>)
    requires Sorted(rest) && (|rest| > 0 ==> h <= rest[0])
    ensures Sorted([h] + rest)
  {
    var r := [h] + rest;
    forall i, j | 0 <= i < j < |r|
      ensures r[i] <= r[j]
    {
      if i == 0 && j > 1 {
        assert rest[0] <= rest[j - 1];
      }
    }
  }

  /** `sorted()`: an ascending permutation of the list. */
  function SortDays(xs: seq<Int32>): (r: seq<Int32>)
    ensures Sorted(r) && multiset(r) == multiset(xs)
    decreases |xs|
  {
    if |xs| == 0 then []
    else
      assert xs == [xs[0]] + xs[1..];
      InsertSorted(xs[0], SortDays(xs[1..]))
  }

  /** `MutableList.remove(day)`: drops the first occurrence. */
  function RemoveFirst(xs: seq<Int32>, d: Int32): (r: seq<Int32>)
    requires d in xs
    ensures multiset(r) == multiset(xs) - multiset{d}
    decreases |xs|
  {
    assert xs == [xs[0]] + xs[1..];
    if xs[0] == d then xs[1..] else [xs[0]] + RemoveFirst(xs[1..], d)
  }

  /** `toggleRepeatDay`'s new list: `day` removed once if present, added otherwise, then sorted. */
  function ToggledDays(days: seq<Int32>, day: Int32): (r: seq<Int32>)
    ensures Sorted(r)
    ensures day in days ==> multiset(r) == multiset(days) - multiset{day}
    ensures day !in days ==> multiset(r) == multiset(days) + multiset{day}
  {
    if day in days then SortDays(RemoveFirst(days, day)) else SortDays(days + [day])
  }

  /** In a list without duplicates every element occurs exactly once. */
  lemma {:induction false} StrictlySortedOnce(xs: seq<Int32>, x: Int32)
    requires StrictlySorted(xs) && x in xs
    ensures multiset(xs)[x] == 1
    decreases |xs|
  {
    assert xs == [xs[0]] + xs[1..];
    if xs[0] == x {
      assert x !in xs[1..];
    } else {
      StrictlySortedOnce(xs[1..], x);
    }
  }

  /** Two positions holding the same value make that value occur at least twice. */
  lemma EqualPositionsRepeat(xs: seq<Int32>, i: int, j: int)
    requires 0 <= i < j < |xs|
    ensures xs[i] == xs[j] ==> multiset(xs)[xs[i]] >= 2
  {
    var v := xs[i];
    assert xs == xs[..j] + xs[j..];
    assert xs[..j][i] == v;
    assert multiset(xs[..j])[v] >= 1;
    assert multiset(xs) == multiset(xs[..j]) + multiset(xs[j..]);
    if xs[j] == v {
      assert xs[j..][0] == v;
      assert multiset(xs[j..])[v] >= 1;
    }
  }

  /** A sorted list whose elements each occur once is strictly sorted. */
  lemma SortedOnceIsStrict(xs: seq<Int32>)
    requires Sorted(xs) && forall x :: x in multiset(xs) ==> multiset(xs)[x] == 1
    ensures StrictlySorted(xs)
  {
    forall i, j | 0 <= i < j < |xs|
      ensures xs[i] < xs[j]
    {
      EqualPositionsRepeat(xs, i, j);
    }
  }

  /** The head of a sorted list is its least element. */
  lemma SortedHeadLeast(a: seq<Int32>, x: Int32)
    requires Sorted(a) && x in a
    ensures a[0] <= x
  {
  }

  /** A sorted list is determined by its multiset of elements. */
  lemma {:induction false} SortedUnique(a: seq<Int32>, b: seq<Int32>)
    requires Sorted(a) && Sorted(b) && multiset(a) == multiset(b)
    ensures a == b
    decreases |a|
  {
    if |a| == 0 {
      assert |multiset(b)| == 0;
    } else {
      assert a[0] in multiset(b);
      assert b[0] in multiset(a);
      var x, y := a[0], b[0];
      SortedHeadLeast(b, x);
      SortedHeadLeast(a, y);
      assert x == y;
      var ta, tb := a[1..], b[1..];
      assert a == [x] + ta;
      assert b == [y] + tb;
      assert multiset(a) == multiset{x} + multiset(ta);
      assert multiset(b) == multiset{x} + multiset(tb);
      assert multiset(ta) == multiset(a) - multiset{x};
      assert multiset(tb) == multiset(b) - multiset{x};
      SortedUnique(ta, tb);
    }
  }

  /** Toggling keeps a duplicate-free sorted list duplicate-free and sorted. */
  lemma ToggleKeepsStrictlySorted(days: seq<Int32>, day: Int32)
    requires StrictlySorted(days)
    ensures StrictlySorted(ToggledDays(days, day))
  {
    var r := ToggledDays(days, day);
    forall x | x in multiset(r)
      ensures multiset(r)[x] == 1
    {
      if x in days {
        StrictlySortedOnce(days, x);
      }
    }
    SortedOnceIsStrict(r);
  }

  /** On a duplicate-free list, toggling flips the membership of `day` and of nothing else. */
  lemma ToggleFlipsOnlyDay(days: seq<Int32>, day: Int32)
    requires StrictlySorted(days)
    ensures day in ToggledDays(days, day) <==> day !in days
    ensures forall x :: x != day ==> (x in ToggledDays(days, day) <==> x in days)
  {
    var r := ToggledDays(days, day);
    if day in days {
      StrictlySortedOnce(days, day);
      var m: multiset<Int32> := multiset(r);
      assert m[day] == 0;
    } else {
      assert day in multiset(r);
    }
    forall x | x != day
      ensures x in r <==> x in days
    {
      var m: multiset<Int32>, n: multiset<Int32> := multiset(r), multiset(days);
      assert m[x] == n[x];
    }
  }

  /** Removing an element that is present and adding it back restores the multiset. */
  lemma RemoveThenAdd(m: multiset<Int32>, d: Int32)
    requires d in m
    ensures (m - multiset{d}) + multiset{d} == m
  {
  }

  /** Adding an element and removing it again restores the multiset. */
  lemma AddThenRemove(m: multiset<Int32>, d: Int32)
    ensures (m + multiset{d}) - multiset{d} == m
  {
  }

  /** Toggling one day twice gives back the same elements. */
  lemma ToggleTwiceSameElements(days: seq<Int32>, day: Int32)
    requires StrictlySorted(days)
    ensures multiset(ToggledDays(ToggledDays(days, day), day)) == multiset(days)
  {
    var once := ToggledDays(days, day);
    ToggleFlipsOnlyDay(days, day);
    if day in days {
      RemoveThenAdd(multiset(days), day);
    } else {
      AddThenRemove(multiset(days), day);
    }
  }

  /** Toggling the same day twice gives back a duplicate-free sorted list. */
  lemma ToggleTwiceRestores(days: seq<Int32>, day: Int32)
    requires StrictlySorted(days)
    ensures ToggledDays(ToggledDays(days, day), day) == days
  {
    ToggleTwiceSameElements(days, day);
    assert Sorted(days);
    SortedUnique(ToggledDays(ToggledDays(days, day), day), days);
  }

  /** `startEditing(task)`: the form filled from a stored task. */
  function EditStateOf(t: Task): (s: TaskEditState)
    ensures s.isEditing && s.editingTaskId == Some(t.id)
    ensures s.title == t.title && s.description == t.description && s.actionData == t.actionData
    ensures s.hour == t.triggerHour && s.minute == t.triggerMinute
    ensures s.repeatType == t.repeatType && s.repeatDays == t.repeatDays && s.actionType == t.actionType
  {
    TaskEditState(t.title, t.description, t.triggerHour, t.triggerMinute, t.repeatType, t.repeatDays,
                  t.actionType, t.actionData, true, Some(t.id))
  }

  /**
   * The `Task` that `saveTask` builds: the editing id or 0, a blank title as
   * "Untitled Task", always enabled, `createdAt` taken from the clock and no
   * `lastTriggered` (the constructor's defaults, also when editing).
   */
  function TaskOfEditState(s: TaskEditState, now: int): (t: Task)
    ensures t.id == s.editingTaskId.GetOr(AutoGenerateId)
    ensures t.title == if IsBlank(s.title) then UntitledTask else s.title
    ensures !IsBlank(t.title)
    ensures t.isEnabled && t.createdAt == now && t.lastTriggered == None
    ensures t.description == s.description && t.actionData == s.actionData
    ensures t.triggerHour == s.hour && t.triggerMinute == s.minute
    ensures t.repeatType == s.repeatType && t.repeatDays == s.repeatDays && t.actionType == s.actionType
  {
    assert !IsWhitespace(UntitledTask[0]);
    Task(s.editingTaskId.GetOr(AutoGenerateId), if IsBlank(s.title) then UntitledTask else s.title,
         s.description, s.hour, s.minute, s.repeatType, s.repeatDays, s.actionType, s.actionData,
         true, now, None)
  }

  /** Opening a task and saving it untouched stores it enabled, with a new `createdAt` and no `lastTriggered`. */
  lemma EditThenSaveUnchanged(t: Task, now: int)
    requires !IsBlank(t.title)
    ensures TaskOfEditState(EditStateOf(t), now) == t.(isEnabled := true, createdAt := now, lastTriggered := None)
  {
  }

  /** A row written through the mapper always has a day list the calculator can parse. */
  lemma MappedTaskSchedules(t: Task, id: int, now: int)
    ensures NextTriggerTime(Mapper.ToEntity(t).(id := id), now).Some?
  {
    var e := Mapper.ToEntity(t);
    assert Mapper.DecodeRepeatDays(e.repeatDays).Some?;
  }

  class TaskViewModel {
    var editState: TaskEditState
    var showTimePicker: bool

    constructor ()
      ensures editState == DefaultEditState && !showTimePicker
    {
      editState := DefaultEditState;
      showTimePicker := false;
    }

    method UpdateTitle(title: string)
      modifies this
      ensures editState == old(editState).(title := title) && showTimePicker == old(showTimePicker)
    {
      editState := editState.(title := title);
    }

    method UpdateDescription(description: string)
      modifies this
      ensures editState == old(editState).(description := description) && showTimePicker == old(showTimePicker)
    {
      editState := editState.(description := description);
    }

    method UpdateTime(hour: int, minute: int)
      modifies this
      ensures editState == old(editState).(hour := hour, minute := minute) && showTimePicker == old(showTimePicker)
    {
      editState := editState.(hour := hour, minute := minute);
    }

    method UpdateRepeatType(repeatType: RepeatType)
      modifies this
      ensures editState == old(editState).(repeatType := repeatType) && showTimePicker == old(showTimePicker)
    {
      editState := editState.(repeatType := repeatType);
    }

    /** `toggleRepeatDay`: flips one day in the form's day list and keeps the list sorted. */
    method ToggleRepeatDay(day: Int32)
      modifies this
      ensures editState == old(editState).(repeatDays := ToggledDays(old(editState).repeatDays, day))
      ensures showTimePicker == old(showTimePicker)
    {
      editState := editState.(repeatDays := ToggledDays(editState.repeatDays, day));
    }

    method UpdateActionType(actionType: ActionType)
      modifies this
      ensures editState == old(editState).(actionType := actionType) && showTimePicker == old(showTimePicker)
    {
      editState := editState.(actionType := actionType);
    }

    method UpdateActionData(actionData: string)
      modifies this
      ensures editState == old(editState).(actionData := actionData) && showTimePicker == old(showTimePicker)
    {
      editState := editState.(actionData := actionData);
    }

    method ShowTimePicker()
      modifies this
      ensures showTimePicker && editState == old(editState)
    {
      showTimePicker := true;
    }

    method HideTimePicker()
      modifies this
      ensures !showTimePicker && editState == old(editState)
    {
      showTimePicker := false;
    }

    /** `startEditing(task)`: the form of an existing task, or the defaults for a new one. */
    method StartEditing(task: Option<Task>)
      modifies this
      ensures editState == if task.Some? then EditStateOf(task.value) else DefaultEditState
      ensures showTimePicker == old(showTimePicker)
    {
      editState := if task.Some? then EditStateOf(task.value) else DefaultEditState;
    }

    method ResetEditState()
      modifies this
      ensures editState == DefaultEditState && showTimePicker == old(showTimePicker)
    {
      editState := DefaultEditState;
    }

    /**
     * `saveTask`: build the task from the form, update the row when editing or
     * insert it otherwise, schedule the row as re-read from the store, and reset
     * the form. A row written this way never makes scheduling throw.
     */
    method SaveTask(dao: Dao.TaskDao, scheduler: TaskScheduler, now: int, host: Host) returns (savedId: int)
      requires dao.Valid()
      modifies this, dao, scheduler
      ensures dao.Valid()
      ensures editState == DefaultEditState && showTimePicker == old(showTimePicker)
      ensures var entity := Mapper.ToEntity(TaskOfEditState(old(editState), now));
        old(editState).editingTaskId.Some? ==>
          && savedId == old(editState).editingTaskId.value
          && dao.lastRowId == old(dao.lastRowId)
          && (savedId in old(dao.rows) ==>
                && dao.rows == old(dao.rows)[savedId := entity]
                && scheduler.alarms == ScheduleStep(old(scheduler.alarms), entity, now, host).0)
          && (savedId !in old(dao.rows) ==>
                dao.rows == old(dao.rows) && scheduler.alarms == old(scheduler.alarms))
      ensures var entity := Mapper.ToEntity(TaskOfEditState(old(editState), now));
        old(editState).editingTaskId.None? ==>
          && savedId == old(dao.lastRowId) + 1 && savedId !in old(dao.rows) && dao.lastRowId == savedId
          && dao.rows == old(dao.rows)[savedId := entity.(id := savedId)]
          && scheduler.alarms == ScheduleStep(old(scheduler.alarms), entity.(id := savedId), now, host).0
    {
      var state := editState;
      var task := TaskOfEditState(state, now);
      var entity := Mapper.ToEntity(task);
      if state.editingTaskId.Some? {
        dao.UpdateTask(entity);
        savedId := state.editingTaskId.value;
      } else {
        savedId := dao.InsertTask(entity);
      }
      var savedTask := dao.GetTaskById(savedId);
      if savedTask.Some? {
        MappedTaskSchedules(task, savedId, now);
        assert savedTask.value == entity.(id := savedId);
        var ok := scheduler.ScheduleTask(savedTask.value, now, host);
      }
      ResetEditState();
    }

    /**
     * `toggleTaskEnabled`: flip the stored flag, then schedule the re-read row if
     * it is now enabled or cancel its alarm if not; nothing when the row is gone.
     * The flag is false when scheduling throws.
     */
    method ToggleTaskEnabled(task: Task, dao: Dao.TaskDao, scheduler: TaskScheduler, now: int, host: Host) returns (ok: bool)
      requires dao.Valid()
      modifies dao, scheduler
      ensures dao.Valid() && dao.lastRowId == old(dao.lastRowId)
      ensures task.id !in old(dao.rows) ==>
        dao.rows == old(dao.rows) && scheduler.alarms == old(scheduler.alarms) && ok
      ensures task.id in old(dao.rows) ==>
        var updated := old(dao.rows)[task.id].(isEnabled := !task.isEnabled);
        && dao.rows == old(dao.rows)[task.id := updated]
        && (!task.isEnabled ==> (scheduler.alarms, ok) == ScheduleStep(old(scheduler.alarms), updated, now, host))
        && (task.isEnabled ==> scheduler.alarms == old(scheduler.alarms) - {RequestCode(task.id)} && ok)
    {
      var newEnabled := !task.isEnabled;
      dao.SetTaskEnabled(task.id, newEnabled);
      var updatedTask := dao.GetTaskById(task.id);
      ok := true;
      if updatedTask.Some? {
        if newEnabled {
          ok := scheduler.ScheduleTask(updatedTask.value, now, host);
        } else {
          scheduler.CancelTask(task.id);
        }
      }
    }

    /** `deleteTask`: cancel the alarm, then remove the row. */
    method DeleteTask(task: Task, dao: Dao.TaskDao, scheduler: TaskScheduler)
      requires dao.Valid()
      modifies dao, scheduler
      ensures dao.Valid() && dao.lastRowId == old(dao.lastRowId)
      ensures scheduler.alarms == old(scheduler.alarms) - {RequestCode(task.id)}
      ensures dao.rows == old(dao.rows) - {task.id}
    {
      scheduler.CancelTask(task.id);
      dao.DeleteTaskById(task.id);
    }
  }
}
