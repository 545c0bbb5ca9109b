/**
 * The persisted row of the `tasks` table. Enumerations and the day list are
 * stored as text: `repeatType` and `actionType` hold enum names and
 * `repeatDays` holds comma-separated Monday = 1 day numbers ("1,2,3").
 */
module Entity {
  import opened Wrappers

  datatype TaskEntity = TaskEntity(
    id: int,                    // primary key; 0 asks the store to generate one
    title: string,
    description: string,
    triggerHour: int,
    triggerMinute: int,
    repeatType: string,         // "ONCE", "DAILY", "WEEKLY" or "CUSTOM"
    repeatDays: string,         // comma-separated Monday = 1 day numbers
    actionType: string,         // "NOTIFICATION", "OPEN_APP" or "PLAY_SOUND"
    actionData: string,         // package name for OPEN_APP
    isEnabled: bool,
    createdAt: int,
    lastTriggered: Option<int>  // null until the task first fires
  )

  /** The `id` value that asks the store to generate a key on insert. */
  const AutoGenerateId: int := 0

  /**
   * A row built with only the required constructor arguments; `createdAt`
   * defaults to the current time, passed in as `now`.
   */
  function NewEntity(title: string, triggerHour: int, triggerMinute: int, now: int): (e: TaskEntity)
    ensures e.id == AutoGenerateId && e.title == title && e.description == ""
    ensures e.triggerHour == triggerHour && e.triggerMinute == triggerMinute
    ensures e.repeatType == "ONCE" && e.repeatDays == "" && e.actionType == "NOTIFICATION" && e.actionData == ""
    ensures e.isEnabled && e.createdAt == now && e.lastTriggered == None
  {
    TaskEntity(AutoGenerateId, title, "", triggerHour, triggerMinute, "ONCE", "", "NOTIFICATION", "", true, now, None)
  }
}
