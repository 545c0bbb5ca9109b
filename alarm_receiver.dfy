/**
 * `AlarmReceiver`: what happens when an alarm fires. The user-visible actions
 * are recorded as an effect trace instead of being performed.
 */
module AlarmReceiver {
  import opened Wrappers
  import opened KotlinText
  import opened Entity
  import opened Domain
  import Mapper
  import Dao
  import opened Scheduler

  /** The id `getLongExtra` reads when the intent carries none. */
  const MissingTaskId: int := -1

  const DefaultNotificationText := "Scheduled task completed"
  const AlarmNotificationText := "Alarm triggered - tap to dismiss"
  const FallbackTitle := "AutoTask"
  const CouldNotOpenPrefix := "Could not open app: "

  /** A user-visible effect of running an action. */
  datatype Effect =
    | Notified(title: string, text: string)
    | Launched(packageName: string)
    | RingtonePlayed

  /** What the device offers: packages with a launch intent, and whether an alarm ringtone resolves. */
  datatype Device = Device(launchable: set<string>, hasAlarmRingtone: bool)

  /** `ActionType.valueOf`, with NOTIFICATION when the stored name is unknown. */
  function ActionOf(name: string): (a: ActionType)
    ensures forall b: ActionType :: name == Mapper.ActionTypeName(b) ==> a == b
    ensures (forall b: ActionType :: name != Mapper.ActionTypeName(b)) ==> a == Notification
  {
    match Mapper.ActionTypeValueOf(name)
    case Some(b) => b
    case None => Notification
  }

  /** `showNotification`: the title as given, a blank message replaced by the default text. */
  function ShowNotification(title: string, message: string): (e: Effect)
    ensures e.Notified? && e.title == title
    ensures e.text == if IsBlank(message) then DefaultNotificationText else message
    ensures !IsBlank(e.text)
  {
    assert !IsWhitespace(DefaultNotificationText[0]);
    Notified(title, if IsBlank(message) then DefaultNotificationText else message)
  }

  /** `openApp`: launch the package, or notify that it could not be opened. */
  function OpenApp(device: Device, packageName: string): (effects: seq<Effect>)
    ensures packageName in device.launchable ==> effects == [Launched(packageName)]
    ensures packageName !in device.launchable ==>
      effects == [Notified(FallbackTitle, CouldNotOpenPrefix + packageName)]
  {
    if packageName in device.launchable then [Launched(packageName)]
    else
      assert !IsWhitespace((CouldNotOpenPrefix + packageName)[0]);
      [ShowNotification(FallbackTitle, CouldNotOpenPrefix + packageName)]
  }

  /** `playSound`: ring when the default alarm ringtone resolves, then notify in any case. */
  function PlaySound(device: Device, title: string): (effects: seq<Effect>)
    ensures |effects| >= 1 && effects[|effects| - 1] == Notified(title, AlarmNotificationText)
    ensures RingtonePlayed in effects <==> device.hasAlarmRingtone
  {
    assert !IsWhitespace(AlarmNotificationText[0]);
    (if device.hasAlarmRingtone then [RingtonePlayed] else []) + [ShowNotification(title, AlarmNotificationText)]
  }

  /** The one action the task's decoded `actionType` selects. */
  function ActionEffects(task: TaskEntity, device: Device): (effects: seq<Effect>)
  {
    match ActionOf(task.actionType)
    case Notification => [ShowNotification(task.title, task.description)]
    case OpenApp => OpenApp(device, task.actionData)
    case PlaySound => PlaySound(device, task.title)
  }

  /** Every action ends in something the user sees: a notification or a launched app. */
  lemma ActionAlwaysVisible(task: TaskEntity, device: Device)
    ensures var effects := ActionEffects(task, device);
      |effects| >= 1 && (effects[|effects| - 1].Notified? || effects[|effects| - 1].Launched?)
  {
  }

  /** An unknown action name runs the NOTIFICATION action with the task's title and description. */
  lemma UnknownActionNotifies(task: TaskEntity, device: Device)
    requires forall b: ActionType :: task.actionType != Mapper.ActionTypeName(b)
    ensures ActionEffects(task, device) == [ShowNotification(task.title, task.description)]
  {
  }

  /** Only an app launch ever starts another package, and only a launchable one. */
  lemma LaunchesOnlyLaunchable(task: TaskEntity, device: Device)
    ensures forall e :: e in ActionEffects(task, device) && e.Launched? ==>
      e.packageName == task.actionData && e.packageName in device.launchable
  {
  }

  /** How a delivery ended. */
  datatype Outcome =
    | InvalidTaskId      // the intent carried no id
    | Skipped            // the row is gone or disabled
    | Disabled           // a ONCE task ran and was switched off
    | Rescheduled        // a repeating task ran and was scheduled again
    | RescheduleFailed   // a repeating task ran; scheduling threw and the exception was caught

  /**
   * `onReceive`, sequentialised: validate the id, load the row, run its action,
   * stamp `lastTriggered`, then reschedule a repeating task or disable a ONCE one.
   * `finished` records that `pendingResult.finish()` ran (every path past `goAsync`).
   */
  method OnReceive(taskIdExtra: Option<int>, dao: Dao.TaskDao, scheduler: TaskScheduler, now: int, host: Host, device: Device)
      returns (outcome: Outcome, effects: seq<Effect>, finished: bool)
    requires dao.Valid()
    modifies dao, scheduler
    ensures dao.Valid() && dao.lastRowId == old(dao.lastRowId)
    ensures var taskId := taskIdExtra.GetOr(MissingTaskId);
      && (finished <==> taskId != MissingTaskId)
      && (outcome == InvalidTaskId <==> taskId == MissingTaskId)
    ensures var taskId := taskIdExtra.GetOr(MissingTaskId);
      (taskId == MissingTaskId || taskId !in old(dao.rows) || !old(dao.rows[taskId]).isEnabled) ==>
        && (outcome == InvalidTaskId || outcome == Skipped)
        && effects == [] && dao.rows == old(dao.rows) && scheduler.alarms == old(scheduler.alarms)
    ensures var taskId := taskIdExtra.GetOr(MissingTaskId);
      (taskId != MissingTaskId && taskId in old(dao.rows) && old(dao.rows[taskId]).isEnabled) ==>
        var task := old(dao.rows[taskId]);
        var stamped := task.(lastTriggered := Some(now));
        && effects == ActionEffects(task, device)
        && (task.repeatType == "ONCE" ==>
              && outcome == Disabled
              && dao.rows == old(dao.rows)[taskId := stamped.(isEnabled := false)]
              && scheduler.alarms == old(scheduler.alarms))
        && (task.repeatType != "ONCE" ==>
              && dao.rows == old(dao.rows)[taskId := stamped]
              && (scheduler.alarms, outcome == Rescheduled) == ScheduleStep(old(scheduler.alarms), task, now, host)
              && (outcome == Rescheduled || outcome == RescheduleFailed))
  {
    var taskId := taskIdExtra.GetOr(MissingTaskId);
    effects := [];
    if taskId == MissingTaskId {
      return InvalidTaskId, effects, false;
    }
    finished := false;
    var task := dao.GetTaskById(taskId);
    if task.Some? && task.value.isEnabled {
      var loaded := task.value;
      effects := ActionEffects(loaded, device);
      dao.UpdateLastTriggered(taskId, now);
      if loaded.repeatType != "ONCE" {
        var ok := scheduler.ScheduleTask(loaded, now, host);
        outcome := if ok then Rescheduled else RescheduleFailed;
      } else {
        dao.SetTaskEnabled(taskId, false);
        outcome := Disabled;
      }
    } else {
      outcome := Skipped;
    }
    finished := true;
  }

  /**
   * The host delivering the alarm under `requestCode` to the receiver: the
   * one-shot registration is consumed, then `onReceive` runs with its task id.
   */
  method DeliverAlarm(requestCode: Int32, dao: Dao.TaskDao, scheduler: TaskScheduler, now: int, host: Host, device: Device)
      returns (outcome: Outcome, effects: seq<Effect>)
    requires dao.Valid()
    requires requestCode in scheduler.alarms
    modifies dao, scheduler
    ensures dao.Valid()
    ensures var taskId := old(scheduler.alarms[requestCode]).taskId;
      taskId != MissingTaskId && taskId in old(dao.rows) && old(dao.rows[taskId]).isEnabled
      && old(dao.rows[taskId]).repeatType == "ONCE" ==>
        && outcome == Disabled
        && requestCode !in scheduler.alarms
        && taskId in dao.rows && !dao.rows[taskId].isEnabled
    ensures var taskId := old(scheduler.alarms[requestCode]).taskId;
      taskId != MissingTaskId && taskId in old(dao.rows) && old(dao.rows[taskId]).isEnabled
      && old(dao.rows[taskId]).repeatType != "ONCE" && RequestCode(taskId) == requestCode
      && ExactAlarmsAllowed(host) && NextTriggerTime(old(dao.rows[taskId]), now).Some? ==>
        && outcome == Rescheduled
        && requestCode in scheduler.alarms
        && scheduler.alarms[requestCode] == Alarm(taskId, NextTriggerTime(old(dao.rows[taskId]), now).value)
  {
    var taskId := scheduler.Deliver(requestCode);
    var finished;
    outcome, effects, finished := OnReceive(taskId, dao, scheduler, now, host, device);
  }
}
