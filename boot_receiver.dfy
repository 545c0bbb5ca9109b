/** `BootReceiver`: after a restart the registry is empty and is rebuilt from the store. */
module BootReceiver {
  import opened Wrappers
  import opened Entity
  import Dao
  import opened Scheduler

  const ActionBootCompleted := "android.intent.action.BOOT_COMPLETED"
  const ActionQuickbootPowerOn := "android.intent.action.QUICKBOOT_POWERON"

  /** The only two broadcast actions the receiver reacts to. */
  predicate IsBootAction(action: Option<string>) {
    action == Some(ActionBootCompleted) || action == Some(ActionQuickbootPowerOn)
  }

  /**
   * `onReceive`: on a boot action, `rescheduleAllTasks` re-arms every enabled row
   * and `finish` is signalled; any other action does nothing.
   */
  method OnReceive(action: Option<string>, dao: Dao.TaskDao, scheduler: TaskScheduler, now: int, host: Host)
      returns (rearmed: seq<TaskEntity>, finished: bool)
    requires dao.Valid()
    modifies scheduler
    ensures finished <==> IsBootAction(action)
    ensures !IsBootAction(action) ==> rearmed == [] && scheduler.alarms == old(scheduler.alarms)
    ensures IsBootAction(action) ==>
      && (forall t :: t in rearmed ==> t.id in dao.rows && dao.rows[t.id] == t && t.isEnabled)
      && (forall id :: id in dao.rows && dao.rows[id].isEnabled ==> dao.rows[id] in rearmed)
      && scheduler.alarms == ScheduleAll(old(scheduler.alarms), rearmed, now, host).0
    ensures (forall id :: id in dao.rows ==> !dao.rows[id].isEnabled) ==> scheduler.alarms == old(scheduler.alarms)
    ensures (IsBootAction(action) && ExactAlarmsAllowed(host) && RequestCodesDistinctIn(dao.rows)
             && forall id :: id in dao.rows && dao.rows[id].isEnabled ==> NextTriggerTime(dao.rows[id], now).Some?) ==>
        forall id :: id in dao.rows && dao.rows[id].isEnabled ==>
          RequestCode(id) in scheduler.alarms
          && scheduler.alarms[RequestCode(id)] == Alarm(id, NextTriggerTime(dao.rows[id], now).value)
  {
    rearmed := [];
    finished := false;
    if IsBootAction(action) {
      var ok;
      rearmed, ok := scheduler.RescheduleAllTasks(dao, now, host);
      if ExactAlarmsAllowed(host) && RequestCodesDistinctIn(dao.rows)
        && (forall id :: id in dao.rows && dao.rows[id].isEnabled ==> NextTriggerTime(dao.rows[id], now).Some?)
      {
        forall i, j | 0 <= i < j < |rearmed|
          ensures RequestCode(rearmed[i].id) != RequestCode(rearmed[j].id)
        {
          assert rearmed[i] in rearmed && rearmed[j] in rearmed;
        }
        forall i | 0 <= i < |rearmed|
          ensures rearmed[i].isEnabled && NextTriggerTime(rearmed[i], now).Some?
        {
          assert rearmed[i] in rearmed;
        }
        ScheduleAllArmsEach(old(scheduler.alarms), rearmed, now, host);
        forall id | id in dao.rows && dao.rows[id].isEnabled
          ensures RequestCode(id) in scheduler.alarms
          ensures scheduler.alarms[RequestCode(id)] == Alarm(id, NextTriggerTime(dao.rows[id], now).value)
        {
          var i :| 0 <= i < |rearmed| && rearmed[i] == dao.rows[id];
        }
      }
      if |rearmed| > 0 {
        assert rearmed[0] in rearmed;
      }
      finished := true;
    }
  }
}
