# AutoTask reminder scheduling engine, in Dafny

AutoTask is an Android app that stores reminder tasks and turns each into a wake-up alarm. A task has a time of day, a repeat rule (ONCE, DAILY, WEEKLY, CUSTOM with Monday = 1 day numbers) and an action (show a notification, open an app, play the alarm sound). When the alarm fires, the app runs the action, records the firing, and then re-arms the alarm or switches the task off. After a reboot, every enabled task is re-armed.

This project is a model of that engine, with proofs:

- **KotlinText** (`kotlin_text.dfy`): the Kotlin string operations the stored day list depends on: `isBlank`, `split`, `joinToString`, `Int.toString`, `String.toInt`.
- **Calendar** (`calendar.dfy`): local-time millisecond arithmetic in place of `java.util.Calendar`. Day numbers, both weekday numberings, the lenient field setter and `add(DAY_OF_MONTH, n)`.
- **Entity**, **Domain**, **Mapper** (`entity.dfy`, `domain.dfy`, `mapper.dfy`):
  - the stored row, with its defaults;
  - the domain `Task` with `formattedTime` and `repeatDescription`;
  - the row/record codec.
- **Dao** (`dao.dfy`): the `tasks` table as a class holding a map from id to row, with the query and update semantics of `TaskDao`.
- **Scheduler** (`scheduler.dfy`):
  - the next-trigger calculator: a specification function plus the imperative day-by-day loop, proved equal to it;
  - the alarm registry, as class `TaskScheduler`, holding a map from request code to alarm.
- **AlarmReceiver**, **BootReceiver** (`alarm_receiver.dfy`, `boot_receiver.dfy`): the fire handler and the restart reconciler. Actions are recorded as an effect trace.
- **ViewModel** (`view_model.dfy`): the edit form as a class, the sorted day toggle, and the save, enable-toggle and delete sequences against the store and the registry.
- **EditScreen** (`edit_screen.dfy`): the "url,column" action-data fields, the day-chip numbering, the Save guard and the day-selector guard.

Conventions:

- **Instants** are local milliseconds since 1970-01-01T00:00 (a Thursday), in a zone with a fixed offset.
- **Clock:** the current time is a parameter, `now`.
- **Host:**
  - The host's alarm service is the `alarms` map.
  - The API level, the exact-alarm grant and a thrown `SecurityException` are fields of `Host`.
  - The launchable packages and the ringtone's availability are fields of `Device`.
- **Exceptions** become `Option`/`bool` results. Examples:
  - `toInt` on a malformed day list;
  - `valueOf` on an unknown enum name;
  - `LocalTime.of` out of range.
- **Coroutines** are sequentialised, and `pendingResult.finish()` is the `finished` flag.
- **Repository:** `TaskRepository` forwards every call to `TaskDao` unchanged, so the model calls the store directly.

Where the code and the written description of the system disagree, the model follows the code:

- **WEEKLY/CUSTOM today:** a WEEKLY/CUSTOM task whose trigger time today is still ahead fires today, even when today is not one of its days (`Scheduler.CustomFiresTodayWhileAhead`). The described Tuesday-to-Friday example does not happen as written.
- **ONCE alarms:** the fire handler does not cancel a ONCE task's alarm; it only disables the row. The registration is gone because the host consumes a one-shot alarm when it delivers it (`Scheduler.TaskScheduler.Deliver`, `AlarmReceiver.DeliverAlarm`).
- **Saving an edit:** `saveTask` builds a fresh `Task` with `createdAt = now` and `lastTriggered = null`, so an edit overwrites both (`ViewModel.EditThenSaveUnchanged`).

## Model

| member | source | states |
|---|---|---|
| KotlinText.Split | java/com/autotask/domain/model/TaskMapper.kt:12 | `split(",")` yields at least one piece; no piece holds the separator; the pieces joined with it give back the input |
| KotlinText.IsWhitespace | java/com/autotask/domain/model/TaskMapper.kt:12 | the characters Kotlin's `isWhitespace` accepts: the ASCII controls tab..carriage return and the separators 0x1C..space, plus the Unicode space separators, line and paragraph separators |
| KotlinText.IsBlank | java/com/autotask/domain/model/TaskMapper.kt:12 | `isBlank`: every character is whitespace, so the empty text is blank |
| KotlinText.Join | java/com/autotask/domain/model/TaskMapper.kt:27 | `joinToString(sep)`: "" for no parts, the parts with one separator between neighbours and none after the last; `SplitJoin` is its inverse |
| KotlinText.SplitNoSeparator | java/com/autotask/domain/model/TaskMapper.kt:12 | a separator-free string splits to itself alone |
| KotlinText.SplitAtSeparator | java/com/autotask/domain/model/TaskMapper.kt:12 | the first separator ends the first piece |
| KotlinText.SplitJoin | java/com/autotask/domain/model/TaskMapper.kt:12-27 | `split` undoes `joinToString` when no part holds the separator |
| KotlinText.NatToDigits | java/com/autotask/domain/model/TaskMapper.kt:27 | the decimal text of a number is non-empty, all digits, with no leading zero |
| KotlinText.DigitsValueOfNat | java/com/autotask/domain/model/TaskMapper.kt:27 | the decimal text of `n` has value `n` |
| KotlinText.IntToString | java/com/autotask/domain/model/TaskMapper.kt:27 | `Int.toString()` is non-empty and never contains a comma |
| KotlinText.ParseInt | java/com/autotask/domain/model/TaskMapper.kt:12 | `toInt` succeeds only on an optional sign and one or more digits; "", "-" and "+" fail |
| KotlinText.ParseIntToString | java/com/autotask/domain/model/TaskMapper.kt:12-27 | `toInt` reads back `toString` for every 32-bit `Int`, including the minimum |
| KotlinText.ParseIntList | java/com/autotask/domain/model/TaskMapper.kt:12 | `map { it.toInt() }` succeeds iff every piece parses, and then yields each piece's value in order |
| KotlinText.JoinInts | java/com/autotask/domain/model/TaskMapper.kt:27 | `joinToString(",")` of `Int`s is "" iff the list is empty and holds only digits, '-' and ',' |
| KotlinText.JoinIntsIsJoin | java/com/autotask/domain/model/TaskMapper.kt:27 | the encoding is the elements' decimal texts, in order, separated by single commas |
| KotlinText.SplitJoinInts | java/com/autotask/domain/model/TaskMapper.kt:12-27 | splitting a non-empty encoding at commas gives each element's decimal text |
| KotlinText.ParseIntListOfStrings | java/com/autotask/domain/model/TaskMapper.kt:12-27 | parsing the elements' decimal texts gives the list back |
| KotlinText.JoinIntsNotBlank | java/com/autotask/domain/model/TaskMapper.kt:12-27 | a non-empty encoded list is never blank, so the decoder does not take its empty-list branch |
| Calendar.TimeOfDay | java/com/autotask/scheduler/TaskScheduler.kt:83-88 | milliseconds since local midnight lie in 0..one day and rebuild the instant with its day |
| Calendar.Weekday | java/com/autotask/scheduler/TaskScheduler.kt:106-115 | the Monday = 1 weekday number is in 1..7 |
| Calendar.CalendarDayOfWeek | java/com/autotask/scheduler/TaskScheduler.kt:97 | `Calendar.DAY_OF_WEEK` (Sunday = 1) is in 1..7 |
| Calendar.ToMondayBasedCorrect | java/com/autotask/scheduler/TaskScheduler.kt:106-115 | the loop's `when` conversion maps every day's Sunday-based number to its Monday-based number |
| Calendar.ToMondayBased | java/com/autotask/scheduler/TaskScheduler.kt:106-115 | the `when` conversion yields a Monday = 1 number in 1..7 for every input, its `else` giving 1; `ToMondayBasedCorrect` shows it converts correctly |
| Calendar.CalendarDayOfWeekIsNextWeekday | java/com/autotask/scheduler/TaskScheduler.kt:97 | read as a Monday-based number, a day's Sunday-based number names the following day |
| Calendar.WeekdayPeriodic | java/com/autotask/scheduler/TaskScheduler.kt:102-118 | weekdays repeat every seven days |
| Calendar.WeekdayDistinctWithinWeek | java/com/autotask/scheduler/TaskScheduler.kt:102-118 | days 1..6 apart fall on different weekdays |
| Calendar.OffsetToWeekday | java/com/autotask/scheduler/TaskScheduler.kt:102-118 | every weekday occurs at an offset of 1..7 days |
| Calendar.AtTimeOfDay | java/com/autotask/scheduler/TaskScheduler.kt:83-88 | setting hour, minute, second = 0 and millisecond = 0 leniently gives today's midnight plus the fields; valid fields stay on the same day at that time of day |
| Calendar.AddDays | java/com/autotask/scheduler/TaskScheduler.kt:93 | `add(DAY_OF_MONTH, n)` moves the day by `n` and keeps the time of day |
| Calendar.FieldsOfTimeOfDay | java/com/autotask/scheduler/TaskScheduler.kt:83-88 | an instant at `h:m:00.000` of its day has exactly those hour, minute, second and millisecond fields |
| Entity.NewEntity | java/com/autotask/data/database/TaskEntity.kt:7-21 | a row built from the required arguments has id 0 (to be generated), "ONCE", "", "NOTIFICATION", "", enabled, `createdAt = now` and no `lastTriggered` |
| Domain.TwoDigits | java/com/autotask/domain/model/Task.kt:35-36 | two zero-padded digits whose value is the number |
| Domain.FormattedTime | java/com/autotask/domain/model/Task.kt:33-37 | "HH:mm": defined iff hour is in 0..23 and minute in 0..59; length 5, ':' at index 2, the two-digit fields read back as hour and minute |
| Domain.DayAbbreviation | java/com/autotask/domain/model/Task.kt:45-46 | `getOrNull(it - 1)` has a name exactly for days 1..7 |
| Domain.DayAbbreviations | java/com/autotask/domain/model/Task.kt:46 | `mapNotNull` drops out-of-range days; empty iff no day is in 1..7; with all days in range, the names of the days in list order |
| Domain.DayAbbreviationsAppend | java/com/autotask/domain/model/Task.kt:46 | `mapNotNull` over a concatenation is the concatenation of the names of each part |
| Domain.DayAbbreviationsDropsInvalid | java/com/autotask/domain/model/Task.kt:46 | a day outside 1..7 contributes no name wherever it stands, so with the all-in-range case the names are fixed for every list |
| Domain.MixedDaysNameValidOnes | java/com/autotask/domain/model/Task.kt:45-46 | [0, 1, 9, 5] names ["Mon", "Fri"] |
| Domain.RepeatDescription | java/com/autotask/domain/model/Task.kt:39-48 | "Once", "Every day" or "Every week" whatever the day list holds; for CUSTOM the day names joined with ", " |
| Domain.CustomWithoutValidDaysIsEmpty | java/com/autotask/domain/model/Task.kt:46 | CUSTOM with no day in 1..7 is described as "" |
| Domain.CustomMondayFriday | java/com/autotask/domain/model/Task.kt:44-47 | CUSTOM on [1, 5] is described as "Mon, Fri" |
| Mapper.RepeatTypeValueOf | java/com/autotask/domain/model/TaskMapper.kt:11 | `RepeatType.valueOf` accepts exactly the four names and yields the variant with that name |
| Mapper.ActionTypeValueOf | java/com/autotask/domain/model/TaskMapper.kt:13 | `ActionType.valueOf` accepts exactly the three names and yields the variant with that name |
| Mapper.RepeatTypeName | java/com/autotask/domain/model/TaskMapper.kt:26 | `RepeatType.name`: the constant's own name, which `valueOf` reads back (`RepeatTypeNameRoundTrip`) |
| Mapper.ActionTypeName | java/com/autotask/domain/model/TaskMapper.kt:28 | `ActionType.name`: the constant's own name, which `valueOf` reads back (`ActionTypeNameRoundTrip`) |
| Mapper.RepeatTypeNameRoundTrip | java/com/autotask/domain/model/TaskMapper.kt:26 | `valueOf(name)` gives back each of the four repeat types |
| Mapper.ActionTypeNameRoundTrip | java/com/autotask/domain/model/TaskMapper.kt:28 | `valueOf(name)` gives back each of the three action types |
| Mapper.EncodeRepeatDays | java/com/autotask/domain/model/TaskMapper.kt:27 | the empty list encodes as "" and only it does; a non-empty one splits back to its elements' decimal texts |
| Mapper.DecodeRepeatDays | java/com/autotask/domain/model/TaskMapper.kt:12 | blank text decodes to []; otherwise decoding succeeds iff every comma piece is an `Int`, one element per piece |
| Mapper.DecodeEncodeRepeatDays | java/com/autotask/domain/model/TaskMapper.kt:12-27 | the day-list codec round-trips every list of `Int`s |
| Mapper.ToTask | java/com/autotask/domain/model/TaskMapper.kt:5-18 | `toTask` succeeds iff both enum names are known and the day list decodes; all other fields are copied and the enums carry the stored names |
| Mapper.ToEntity | java/com/autotask/domain/model/TaskMapper.kt:20-33 | `toEntity` copies every plain field, and its enum names and day text decode back to the task's values |
| Mapper.ToTaskToEntity | java/com/autotask/domain/model/TaskMapper.kt:5-33 | `toTask(toEntity(t)) == t` for every task |
| Mapper.NonNumericDayFails | java/com/autotask/domain/model/TaskMapper.kt:12 | a day list "1,x" makes `toTask` fail even with known enum names |
| Dao.InsertByTime | java/com/autotask/data/database/TaskDao.kt:8-9 | inserting into a time-ordered list keeps it ordered by (hour, minute), adds exactly that row and keeps ids distinct |
| Dao.TaskDao.constructor | java/com/autotask/data/database/TaskDao.kt:6-7 | a new table is empty and well-formed |
| Dao.TaskDao.GetTaskById | java/com/autotask/data/database/TaskDao.kt:17-18 | the row with that id, or None iff there is none |
| Dao.TaskDao.GetEnabledTasksList | java/com/autotask/data/database/TaskDao.kt:14-15 | exactly the enabled rows, each once |
| Dao.TaskDao.GetAllTasks | java/com/autotask/data/database/TaskDao.kt:8-9 | every row once, ordered by (triggerHour, triggerMinute) |
| Dao.TaskDao.InsertTask | java/com/autotask/data/database/TaskDao.kt:20-21 | id 0 gets a fresh key above every key used so far; REPLACE overwrites the row with that key; the stored id is returned |
| Dao.TaskDao.UpdateTask | java/com/autotask/data/database/TaskDao.kt:23-24 | overwrites the row with the same key, and does nothing when there is none |
| Dao.TaskDao.DeleteTask | java/com/autotask/data/database/TaskDao.kt:26-27 | removes the row with the entity's key only |
| Dao.TaskDao.DeleteTaskById | java/com/autotask/data/database/TaskDao.kt:29-30 | removes row `id` only; a no-op when it is absent |
| Dao.TaskDao.SetTaskEnabled | java/com/autotask/data/database/TaskDao.kt:32-33 | changes only `isEnabled` of row `id`; a no-op when it is absent |
| Dao.TaskDao.UpdateLastTriggered | java/com/autotask/data/database/TaskDao.kt:35-36 | changes only `lastTriggered` of row `id`; a no-op when it is absent |
| Scheduler.ScanFrom | java/com/autotask/scheduler/TaskScheduler.kt:102-118 | the scan from offset `d` stops at the first repeat day, or at 7 |
| Scheduler.DaysToAdvance | java/com/autotask/scheduler/TaskScheduler.kt:102-118 | the advance is in 1..7; no earlier offset is a repeat day; below 7 it lands on one |
| Scheduler.DaysToAdvanceUnique | java/com/autotask/scheduler/TaskScheduler.kt:102-118 | any offset at which the loop can exit is the one `DaysToAdvance` gives |
| Scheduler.DaysToAdvanceFindsRepeatDay | java/com/autotask/scheduler/TaskScheduler.kt:102-118 | when some day in 1..7 is listed, the advance lands on a listed weekday |
| Scheduler.RepeatDaysOrToday | java/com/autotask/scheduler/TaskScheduler.kt:96-100 | a blank list becomes [fallback day], where the mapper reads no days; otherwise the calculator reads the stored text exactly as the mapper's `toTask` decodes it, None when a piece is not an `Int` |
| Scheduler.Candidate | java/com/autotask/scheduler/TaskScheduler.kt:83-88 | today's calendar set to triggerHour:triggerMinute:00.000 (lenient, as `Calendar.set`) |
| Scheduler.FallbackDay | java/com/autotask/scheduler/TaskScheduler.kt:97 | the intended fallback: the candidate's Monday = 1 weekday, the number the loop's `when` gives that day |
| Scheduler.FallbackDayAsWritten | java/com/autotask/scheduler/TaskScheduler.kt:97 | the written fallback `DAY_OF_WEEK`, read as Monday = 1, names the day after the candidate |
| Scheduler.DaysLater | java/com/autotask/scheduler/TaskScheduler.kt:92-120 | the advance is 0..7 days; None exactly for WEEKLY/CUSTOM with a non-blank, malformed list; at least one day for a known repeat type |
| Scheduler.NextTriggerTime | java/com/autotask/scheduler/TaskScheduler.kt:82-124 | fails exactly when the candidate has passed and a WEEKLY/CUSTOM day list is malformed; a future candidate is returned as is; a passed one moves whole days forward |
| Scheduler.NextTriggerTimeAsWritten | java/com/autotask/scheduler/TaskScheduler.kt:82-124 | the calculator with the Sunday-based blank-list fallback; with a non-blank day list it agrees with `NextTriggerTime` |
| Scheduler.CalculateNextTriggerTime | java/com/autotask/scheduler/TaskScheduler.kt:82-124 | the calendar-mutating loop computes `NextTriggerTime` |
| Scheduler.NextTriggerShape | java/com/autotask/scheduler/TaskScheduler.kt:83-123 | the result is 0..7 days after the candidate, at the same time of day |
| Scheduler.NextTriggerIsFuture | java/com/autotask/scheduler/TaskScheduler.kt:91-123 | for the four known repeat types and a valid time of day, the result is strictly after `now` |
| Scheduler.NextTriggerFields | java/com/autotask/scheduler/TaskScheduler.kt:83-88 | the result has hour `triggerHour`, minute `triggerMinute`, second 0 and millisecond 0 |
| Scheduler.NextTriggerToday | java/com/autotask/scheduler/TaskScheduler.kt:91 | a candidate still ahead is returned, on the day of `now` |
| Scheduler.OnceDailyAdvanceOneDay | java/com/autotask/scheduler/TaskScheduler.kt:91-93 | ONCE/DAILY with a passed candidate (equality counts as passed) give candidate + 1 day |
| Scheduler.WeeklyAdvanceToRepeatDay | java/com/autotask/scheduler/TaskScheduler.kt:94-118 | WEEKLY/CUSTOM with a passed candidate give candidate + d days, d the least listed offset in 1..7, else 7 |
| Scheduler.WeeklyAdvanceResolved | java/com/autotask/scheduler/TaskScheduler.kt:94-118 | the same advance stated for any day list the fallback resolution yields, blank included |
| Scheduler.AdvanceToRepeatDay | java/com/autotask/scheduler/TaskScheduler.kt:102-118 | the day-by-day loop stops on the first offset in 1..7 whose weekday is listed, else after 7 days |
| Scheduler.UnknownRepeatTypeUnadjusted | java/com/autotask/scheduler/TaskScheduler.kt:92-120 | an unrecognised repeat type returns today's candidate even when it has passed |
| Scheduler.DaysIgnoredUnlessWeekly | java/com/autotask/scheduler/TaskScheduler.kt:92-100 | outside WEEKLY/CUSTOM the day list does not affect the result |
| Scheduler.CustomFiresTodayWhileAhead | java/com/autotask/scheduler/TaskScheduler.kt:91 | a CUSTOM Monday/Friday task fires on a Tuesday while that day's time is ahead |
| Scheduler.BlankDaysAsWrittenAdvanceOneDay | java/com/autotask/scheduler/TaskScheduler.kt:96-118 | as written, a blank WEEKLY/CUSTOM list on a passed candidate always moves one day |
| Scheduler.BlankDaysAdvanceOneWeek | java/com/autotask/scheduler/TaskScheduler.kt:96-118 | as intended, a blank WEEKLY/CUSTOM list on a passed candidate moves seven days, to the same weekday |
| Scheduler.RequestCode | java/com/autotask/scheduler/TaskScheduler.kt:132 | `taskId.toInt()` is the id itself in the `Int` range, and always agrees with the id modulo 2^32 |
| Scheduler.RequestCodeCollision | java/com/autotask/scheduler/TaskScheduler.kt:132 | ids 2^32 apart share one alarm slot |
| Scheduler.SmallIdsDistinctCodes | java/com/autotask/scheduler/TaskScheduler.kt:132 | ids in the `Int` range never share a request code |
| Scheduler.ScheduleStep | java/com/autotask/scheduler/TaskScheduler.kt:32-64 | disabled: the key is cancelled; enabled and allowed: the key holds (id, next instant); refused or SecurityException: registry unchanged; other keys never change; fails only if the calculator throws |
| Scheduler.ScheduleIdempotent | java/com/autotask/scheduler/TaskScheduler.kt:32-64 | scheduling the same task twice at the same `now` is the same as scheduling it once |
| Scheduler.ScheduleAll | java/com/autotask/scheduler/TaskScheduler.kt:72-79 | the `forEach` succeeds iff every enabled task's instant is computable |
| Scheduler.ScheduleAllArmsEach | java/com/autotask/scheduler/TaskScheduler.kt:72-79 | re-arming enabled tasks with distinct request codes arms each at its instant, whatever the registry held, and leaves other codes alone |
| Scheduler.ScheduleAllRegisters | java/com/autotask/scheduler/TaskScheduler.kt:72-79 | when every step is allowed and succeeds, each task's code ends up holding (id, its next instant), later tasks never overwriting earlier codes |
| Scheduler.ScheduleAllKeepsOthers | java/com/autotask/scheduler/TaskScheduler.kt:72-79 | whatever the host and the outcome, re-arming leaves every code that no task occupies as it was |
| Scheduler.ScheduleAllFromEmpty | java/com/autotask/scheduler/TaskScheduler.kt:72-79 | from an empty registry, re-arming leaves exactly one alarm per task |
| Scheduler.TaskScheduler.constructor | java/com/autotask/scheduler/TaskScheduler.kt:20-25 | a new scheduler sees the alarms already armed in the process-wide alarm service; the registry is empty only after a restart |
| Scheduler.TaskScheduler.CancelTask | java/com/autotask/scheduler/TaskScheduler.kt:66-70 | removes the id's request code and nothing else; a no-op when it is absent |
| Scheduler.TaskScheduler.ScheduleTask | java/com/autotask/scheduler/TaskScheduler.kt:32-64 | the new registry and the result flag are `ScheduleStep` of the old registry |
| Scheduler.TaskScheduler.RescheduleAllTasks | java/com/autotask/scheduler/TaskScheduler.kt:72-80 | schedules exactly the enabled rows, each once, and the registry becomes `ScheduleAll` of them |
| Scheduler.TaskScheduler.Deliver | java/com/autotask/scheduler/TaskScheduler.kt:126-135 | the host consumes the one-shot alarm under the request code and hands over the task id its intent carries |
| AlarmReceiver.ActionOf | java/com/autotask/scheduler/AlarmReceiver.kt:46-51 | a known action name decodes to its own variant; an unknown one to NOTIFICATION |
| AlarmReceiver.ShowNotification | java/com/autotask/scheduler/AlarmReceiver.kt:115-125 | the notification keeps the title; a blank message becomes "Scheduled task completed"; the text is never blank |
| AlarmReceiver.OpenApp | java/com/autotask/scheduler/AlarmReceiver.kt:129-143 | launches a launchable package, otherwise notifies "AutoTask" / "Could not open app: <pkg>" |
| AlarmReceiver.PlaySound | java/com/autotask/scheduler/AlarmReceiver.kt:145-157 | rings iff the alarm ringtone resolves, and always ends with "Alarm triggered - tap to dismiss" |
| AlarmReceiver.ActionEffects | java/com/autotask/scheduler/AlarmReceiver.kt:46-58 | the one action the decoded name selects, unknown names running NOTIFICATION; `ActionAlwaysVisible`, `UnknownActionNotifies` and `LaunchesOnlyLaunchable` state its effects |
| AlarmReceiver.ActionAlwaysVisible | java/com/autotask/scheduler/AlarmReceiver.kt:54-58 | every action ends with a notification or an app launch |
| AlarmReceiver.UnknownActionNotifies | java/com/autotask/scheduler/AlarmReceiver.kt:46-55 | an unknown action name runs the notification action with title and description |
| AlarmReceiver.LaunchesOnlyLaunchable | java/com/autotask/scheduler/AlarmReceiver.kt:56 | the only package ever started is the task's own, and only when it is launchable |
| AlarmReceiver.OnReceive | java/com/autotask/scheduler/AlarmReceiver.kt:30-79 | id -1: no store access, no effect, no finish; absent or disabled row: nothing changes; otherwise one action, `lastTriggered = now`, then reschedule (non-ONCE) or disable (ONCE); finish on every path after `goAsync` |
| AlarmReceiver.DeliverAlarm | java/com/autotask/scheduler/AlarmReceiver.kt:61-71 | a fired ONCE task ends disabled with no alarm left; a fired repeating task is re-armed at its next instant |
| BootReceiver.OnReceive | java/com/autotask/scheduler/BootReceiver.kt:19-39 | only the two boot actions do anything, and `finish` follows; every enabled row is re-armed from the store; an empty enabled set changes nothing |
| ViewModel.InsertSorted | java/com/autotask/viewmodel/TaskViewModel.kt:75 | inserting into an ascending list keeps it ascending and adds exactly that element |
| ViewModel.SortDays | java/com/autotask/viewmodel/TaskViewModel.kt:75 | `sorted()` is an ascending permutation |
| ViewModel.RemoveFirst | java/com/autotask/viewmodel/TaskViewModel.kt:71 | `remove(day)` drops exactly one occurrence |
| ViewModel.ToggledDays | java/com/autotask/viewmodel/TaskViewModel.kt:68-75 | the toggled list is sorted; one occurrence of a present day removed, or the absent day added |
| ViewModel.StrictlySortedOnce | java/com/autotask/viewmodel/TaskViewModel.kt:68-75 | in a duplicate-free list every element occurs once |
| ViewModel.SortedOnceIsStrict | java/com/autotask/viewmodel/TaskViewModel.kt:75 | a sorted list without repeats is strictly ascending |
| ViewModel.SortedUnique | java/com/autotask/viewmodel/TaskViewModel.kt:75 | a sorted list is determined by its elements |
| ViewModel.ToggleKeepsStrictlySorted | java/com/autotask/viewmodel/TaskViewModel.kt:68-75 | a sorted, duplicate-free day list stays so after a toggle |
| ViewModel.ToggleFlipsOnlyDay | java/com/autotask/viewmodel/TaskViewModel.kt:69-75 | a toggle flips the membership of that day and of no other |
| ViewModel.ToggleTwiceSameElements | java/com/autotask/viewmodel/TaskViewModel.kt:69-75 | toggling a day twice gives back the same elements |
| ViewModel.ToggleTwiceRestores | java/com/autotask/viewmodel/TaskViewModel.kt:69-75 | toggling a day twice gives back the original list |
| ViewModel.EditStateOf | java/com/autotask/viewmodel/TaskViewModel.kt:95-107 | the form copies every field of the task, with `isEditing` and the task's id |
| ViewModel.TaskOfEditState | java/com/autotask/viewmodel/TaskViewModel.kt:120-131 | the saved task has the editing id or 0, a never-blank title ("Untitled Task" for a blank one), is enabled, `createdAt = now`, no `lastTriggered`, and the form's other fields |
| ViewModel.EditThenSaveUnchanged | java/com/autotask/viewmodel/TaskViewModel.kt:94-131 | opening a task and saving it unchanged re-enables it, restamps `createdAt` and clears `lastTriggered` |
| ViewModel.MappedTaskSchedules | java/com/autotask/viewmodel/TaskViewModel.kt:133-143 | a task stored through the mapper can always be scheduled (its day list parses) |
| ViewModel.TaskViewModel.constructor | java/com/autotask/viewmodel/TaskViewModel.kt:23-50 | the form starts at its defaults (8:00, ONCE, NOTIFICATION, no days) with the time picker hidden |
| ViewModel.TaskViewModel.UpdateTitle | java/com/autotask/viewmodel/TaskViewModel.kt:52-54 | changes the title only |
| ViewModel.TaskViewModel.UpdateDescription | java/com/autotask/viewmodel/TaskViewModel.kt:56-58 | changes the description only |
| ViewModel.TaskViewModel.UpdateTime | java/com/autotask/viewmodel/TaskViewModel.kt:60-62 | changes hour and minute only |
| ViewModel.TaskViewModel.UpdateRepeatType | java/com/autotask/viewmodel/TaskViewModel.kt:64-66 | changes the repeat type only |
| ViewModel.TaskViewModel.ToggleRepeatDay | java/com/autotask/viewmodel/TaskViewModel.kt:68-76 | replaces the day list with its toggle and changes nothing else |
| ViewModel.TaskViewModel.UpdateActionType | java/com/autotask/viewmodel/TaskViewModel.kt:78-80 | changes the action type only |
| ViewModel.TaskViewModel.UpdateActionData | java/com/autotask/viewmodel/TaskViewModel.kt:82-84 | changes the action data only |
| ViewModel.TaskViewModel.ShowTimePicker | java/com/autotask/viewmodel/TaskViewModel.kt:86-88 | shows the picker and keeps the form |
| ViewModel.TaskViewModel.HideTimePicker | java/com/autotask/viewmodel/TaskViewModel.kt:90-92 | hides the picker and keeps the form |
| ViewModel.TaskViewModel.StartEditing | java/com/autotask/viewmodel/TaskViewModel.kt:94-111 | the form of the given task, or the defaults without one |
| ViewModel.TaskViewModel.ResetEditState | java/com/autotask/viewmodel/TaskViewModel.kt:113-115 | the form returns to its defaults |
| ViewModel.TaskViewModel.SaveTask | java/com/autotask/viewmodel/TaskViewModel.kt:117-148 | editing updates the existing row (or nothing if it is gone); a new task is inserted under the next AUTOINCREMENT id, which becomes the table's sequence value; the stored row is scheduled; the form is reset |
| ViewModel.TaskViewModel.ToggleTaskEnabled | java/com/autotask/viewmodel/TaskViewModel.kt:150-164 | flips the stored flag; then schedules the row if newly enabled, or cancels its alarm if disabled; nothing when the row is gone |
| ViewModel.TaskViewModel.DeleteTask | java/com/autotask/viewmodel/TaskViewModel.kt:166-171 | cancels the alarm and removes the row, nothing else |
| EditScreen.SheetUrl | java/com/autotask/ui/screens/TaskEditScreen.kt:236-238 | the URL field is the text before the first comma, or all of it |
| EditScreen.SheetColumn | java/com/autotask/ui/screens/TaskEditScreen.kt:236-238 | the column field is the text between the first and second commas, or "" without a comma |
| EditScreen.WithSheetUrl | java/com/autotask/ui/screens/TaskEditScreen.kt:243 | typing a URL stores "url,column" with the current column; `EditUrlKeepsColumn` reads both back |
| EditScreen.WithSheetColumn | java/com/autotask/ui/screens/TaskEditScreen.kt:253 | typing a column stores "url,column" with the current URL; `EditColumnKeepsUrl` reads both back |
| EditScreen.SheetFieldsRoundTrip | java/com/autotask/ui/screens/TaskEditScreen.kt:236-253 | splitting "u,c" gives back u and c when neither holds a comma |
| EditScreen.EditUrlKeepsColumn | java/com/autotask/ui/screens/TaskEditScreen.kt:243 | typing a URL changes the URL field and keeps the column |
| EditScreen.EditColumnKeepsUrl | java/com/autotask/ui/screens/TaskEditScreen.kt:253 | typing a column changes the column field and keeps the URL |
| EditScreen.DayChipNumber | java/com/autotask/ui/screens/TaskEditScreen.kt:332-339 | chip `i` toggles day `i + 1`, in 1..7, whose name begins with the chip's label |
| EditScreen.ChipToggleStaysInWeek | java/com/autotask/ui/screens/TaskEditScreen.kt:338-347 | toggling chips keeps every selected day in 1..7 |
| EditScreen.SaveEnabledKeepsTitle | java/com/autotask/ui/screens/TaskEditScreen.kt:60 | with Save enabled (non-blank title) the saved title is the typed one |
| EditScreen.SaveEnabled | java/com/autotask/ui/screens/TaskEditScreen.kt:60 | Save is enabled exactly for a non-blank title |
| EditScreen.HiddenDaysHaveNoEffect | java/com/autotask/ui/screens/TaskEditScreen.kt:166 | while the day selector is hidden, the day list affects neither the next trigger instant nor the description |
| EditScreen.DaySelectorShown | java/com/autotask/ui/screens/TaskEditScreen.kt:166 | the day selector is shown exactly for WEEKLY and CUSTOM |

## Left out

- Time zones, daylight-saving days and the real clock: instants are local milliseconds in a fixed-offset zone, and each operation reads one `now`. The calculator's two clock reads are one.
- Logging, notification channels, the notification id derived from the clock, and the `PendingIntent` that opens the app from a notification.
- Exceptions other than the calculator's `NumberFormatException`, which is the only one modelled on the scheduling path and surfaces as a false flag or `RescheduleFailed`. Where the others go in the source:
  - `openApp` and `playSound` catch and log their own exceptions (java/com/autotask/scheduler/AlarmReceiver.kt:140, :154).
  - In the alarm receiver, anything else falls to the outer catch (:73-74): a database failure, or `showNotification` in the NOTIFICATION branch (:55), which has no local `try`. That catch logs it and skips the remaining stamp, re-arm or disable steps; `finish` still runs.
  - Database exceptions in `saveTask`, `toggleTaskEnabled` and `deleteTask` (java/com/autotask/viewmodel/TaskViewModel.kt:117-171) are not caught and escape their coroutine.
  - The same holds for `rescheduleAllTasks`' own `scope.launch` (java/com/autotask/scheduler/TaskScheduler.kt:73-79). The boot receiver's read of the store runs there, outside the receiver's `try` (java/com/autotask/scheduler/BootReceiver.kt:27-31).
- Concurrency: `goAsync`, `Dispatchers.IO` and `viewModelScope.launch` are sequential calls. `rescheduleAllTasks` launches in its own scope, so the boot receiver can finish before re-arming ends.
- Scheduler.TaskScheduler.RescheduleAllTasks: stops at the first task whose calculation throws. In the source, that exception escapes the coroutine and the process's handling of it is not modelled.
- The `Flow`/`StateFlow` queries (`getAllTasks`, `getEnabledTasks`, the view model's `tasks`) are one snapshot. `TaskRepository` is not part of this model, because every method forwards to `TaskDao`.
- Dao.TaskDao.GetEnabledTasksList: the query has no ORDER BY. Any order is allowed, and the contract fixes only the contents.
- KotlinText.ParseInt: accepts ASCII digits only. `Integer.parseInt` also accepts other Unicode decimal digits.
- Scheduler.NextTriggerIsFuture: requires hour 0..23 and minute 0..59, the values the time picker produces. With out-of-range fields the lenient calendar can put a passed candidate so far back that one day is not enough.
- Scheduler.NextTriggerFields: requires a valid time of day, for the same reason.
- BootReceiver.OnReceive: requires distinct request codes (ids in the `Int` range, `Scheduler.SmallIdsDistinctCodes`) and parseable day lists to guarantee that every enabled row is armed. Otherwise the contract states only that the registry is `ScheduleAll` over the enabled rows.
- AlarmReceiver.DeliverAlarm: states the ONCE case and the case of a repeating task re-armed under its own request code. The other cases follow from `AlarmReceiver.OnReceive`.
- The `onComplete` callback of `saveTask` and all Compose rendering, navigation and permission prompts.
- The action `GOOGLE_SHEET_COPY` is not part of this model. The edit screen names it, but `ActionType` lacks it. Only the screen's splitting and joining of `actionData` is modelled.
- Room internals beyond the table semantics: generated keys are `lastRowId + 1`, the AUTOINCREMENT sequence.
- Scheduler.CalculateNextTriggerTime: uses the corrected blank-list fallback, so a blank WEEKLY/CUSTOM task whose time has passed is put 7 days out where the program puts it 1 day out; `Scheduler.NextTriggerTimeAsWritten` is the written behaviour.
- Scheduler.ScheduleStep: arms at the corrected instant, so a blank WEEKLY/CUSTOM task whose time has passed is armed 7 days out where the program arms it 1 day out.
- Scheduler.TaskScheduler.ScheduleTask: equals `ScheduleStep`, so a blank WEEKLY/CUSTOM task whose time has passed is armed 7 days out where the program arms it 1 day out.
- Scheduler.ScheduleStep: `createPendingIntent` runs before the SDK and permission checks, and FLAG_UPDATE_CURRENT rewrites the task-id extra of an alarm already armed under the same request code even when the exact alarm is then refused; the model leaves that entry's `taskId` as it was. This matters only for ids 2^32 apart.

## Findings

| source | as written | input that shows it | evidently intended | confidence | as-written member | corrected member |
|---|---|---|---|---|---|---|
| java/com/autotask/scheduler/TaskScheduler.kt:96-97 | a blank `repeatDays` is replaced by `[calendar.get(DAY_OF_WEEK)]`, which is Sunday = 1. The loop compares Monday = 1 numbers (:106-116), so the stored number names the following day. | a WEEKLY task with `repeatDays = ""`, 09:00, on a Wednesday at 10:00 (Sunday-based 4 = Thursday in Monday = 1). The next trigger is Thursday 09:00. | the same weekday seven days later (Wednesday 09:00 next week) | not executed | Scheduler.NextTriggerTimeAsWritten, Scheduler.BlankDaysAsWrittenAdvanceOneDay | Scheduler.NextTriggerTime, Scheduler.BlankDaysAdvanceOneWeek |

`Scheduler.CalculateNextTriggerTime` and everything built on it (registry, receivers, view model) use the corrected fallback.
